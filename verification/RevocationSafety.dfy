/** The guarantees the cache is meant to give, over every interleaving.

    `StalenessIsBounded`: whatever fails, an accepted credential is what the database would have answered
    at most `delay + 60` seconds earlier.
    `RevocationSafeExactlyWhen`: once a revocation has reached Redis, no request that had not yet made its
    tombstone check is ever accepted, if and only if a row read reaches the cache within 60 seconds and
    a failed tombstone check is never followed by a served cache read.
    `UpdateVisibleExactlyWhen`: after an update has deleted the cache entry, later requests see the new value
    if and only if no request in flight still holds the old row.
 */
module RevocationSafety {
  import opened Options
  import opened CacheCodec
  import opened ApiKeyProtocol
  import opened ApiKeyInvariants

  // ---------- bounded staleness ----------

  ghost predicate Witnessed(r: Run, n: nat, p: string, read: Read)
    requires n < |r.states|
  {
    exists i: nat :: i <= n && SeenAt(r.states[i].s, p, read)
  }

  predicate SeenAt(s: Shared, p: string, read: Read) {
    s.now == read.at && p in s.rows && s.rows[p] == read.row
  }

  ghost predicate Provenance(r: Run, n: nat)
    requires n < |r.states|
  {
    var w := r.states[n];
    && (forall p | p in w.s.cache :: Witnessed(r, n, p, w.s.cache[p].origin))
    && (forall id | id in w.requests && w.requests[id].phase.StoreEntry? ::
          Witnessed(r, n, Prefix(w.requests[id].token), w.requests[id].phase.read))
  }

  lemma ProvenanceStep(r: Run, c: Config, n: nat)
    requires IsRun(r, c) && n < |r.events| && Provenance(r, n)
    ensures Provenance(r, n + 1)
  {
    assert StepAt(r, n, c);
    var w, e, w' := r.states[n], r.events[n], r.states[n + 1];
    forall p, read | Witnessed(r, n, p, read) ensures Witnessed(r, n + 1, p, read) {}
    if e.Resume? {
      var q, q' := w.requests[e.id], w'.requests[e.id];
      RequestStepFrame(w.s, q, e.ok);
      RequestStepSource(w.s, q, e.ok);
      assert q'.phase.StoreEntry? ==> Witnessed(r, n + 1, Prefix(q.token), q'.phase.read);
    } else if !e.Arrive? {
      ManagementStep(w, e, c);
      forall p | p in w'.s.cache ensures CopyKept(w.s, w'.s, p) {}
    }
  }

  /** A row held or cached after a step was held before it, or is the row of this very moment. */
  lemma RequestStepSource(s: Shared, q: Request, ok: bool)
    ensures var (s', q') := RequestStep(s, q, ok); var p := Prefix(q.token);
      && (p in s'.cache && !(p in s.cache && s'.cache[p] == s.cache[p]) ==>
            q.phase.StoreEntry? && s'.cache[p].origin == q.phase.read)
      && (q'.phase.StoreEntry? ==> SeenAt(s, p, q'.phase.read))
  {
  }

  lemma {:induction false} ProvenanceThroughout(r: Run, c: Config, n: nat)
    requires IsRun(r, c) && n < |r.states|
    ensures Provenance(r, n)
  {
    if n > 0 {
      ProvenanceThroughout(r, c, n - 1);
      ProvenanceStep(r, c, n - 1);
    }
  }

  /** Bounded staleness, under any faults: what a request is told at step `n` is what a plain database
      check answered at a state `i` no more than `delay + 60` seconds older. */
  lemma StalenessIsBounded(r: Run, c: Config, n: nat, id: nat) returns (i: nat)
    requires IsRun(r, c) && c.delay >= 0.0 && n < |r.events|
    requires id in r.states[n + 1].requests && r.states[n + 1].requests[id].phase.Accepted?
    requires id in r.states[n].requests ==> !r.states[n].requests[id].phase.Accepted?
    ensures i <= n && r.states[i].s.now >= r.states[n + 1].s.now - (c.delay + 60.0)
    ensures var q := r.states[n + 1].requests[id]; var rows := r.states[i].s.rows; var p := Prefix(q.token);
      && p in rows && rows[p].active && rows[p].secret == q.token
      && q.phase.info.keyId == rows[p].keyId && q.phase.info.orgId == rows[p].orgId && q.phase.info.debug == rows[p].debug
  {
    InvThroughout(r, c, n);
    ProvenanceThroughout(r, c, n);
    assert StepAt(r, n, c);
    var w, e := r.states[n], r.events[n];
    var q := w.requests[id];
    var p := Prefix(q.token);
    if q.phase.ReadCache? {
      var entry := w.s.cache[p];
      assert EntryOk(w.s, p, entry, c);
      DecodeInvertsEncode(entry.origin.row.secret, q.token, entry.origin.row.Info());
      assert Witnessed(r, n, p, entry.origin);
      i :| i <= n && SeenAt(r.states[i].s, p, entry.origin);
    } else if q.phase.StoreEntry? {
      assert RequestOk(w.s, q);
      assert Witnessed(r, n, p, q.phase.read);
      i :| i <= n && SeenAt(r.states[i].s, p, q.phase.read);
    } else {
      i := n;
    }
  }

  /** Even when Redis never hears of it, a revocation takes hold within `delay + 60` seconds of its commit. */
  lemma RevocationTakesHold(r: Run, c: Config, m: nat, n: nat, id: nat, p: string)
    requires IsRun(r, c) && c.delay >= 0.0 && m <= n < |r.events| && Retired(r.states[m].s, p)
    requires AcceptedFor(r.states[n + 1], id, p) && !AcceptedFor(r.states[n], id, p)
    ensures r.states[n + 1].s.now <= r.states[m].s.now + c.delay + 60.0
  {
    assert StepAt(r, n, c);
    var i := StalenessIsBounded(r, c, n, id);
    RunEvolves(r, c, if i < m then i else m, if i < m then m else i);
  }

  predicate AcceptedFor(w: World, id: nat, p: string) {
    id in w.requests && Prefix(w.requests[id].token) == p && w.requests[id].phase.Accepted?
  }

  // ---------- revocation ----------

  /** Request `id` has not yet made its tombstone check. */
  predicate Unchecked(w: World, id: nat) {
    id in w.requests ==> w.requests[id].phase.CheckTombstone? || w.requests[id].phase.ReadRow?
  }

  /** Step `i` is the Redis half of revoking or rotating away the key with prefix `p`, and it succeeded. */
  predicate RevokedAt(r: Run, i: nat, p: string)
    requires i < |r.events| <= |r.states|
  {
    var e := r.events[i];
    e.Invalidate? && e.ok && e.id in r.states[i].pending && r.states[i].pending[e.id] == Invalidation(p, true)
  }

  /** No request that was still unchecked when the revocation landed is accepted afterwards. */
  ghost predicate RevocationUpheld(r: Run)
    requires |r.states| == |r.events| + 1
  {
    forall i: nat, j: nat, id: nat, p |
      i < j < |r.states| && RevokedAt(r, i, p) && Unchecked(r.states[i + 1], id) ::
      !AcceptedFor(r.states[j], id, p)
  }

  ghost predicate RevocationSafe(c: Config) {
    forall r: Run | IsRun(r, c) :: RevocationUpheld(r)
  }

  /** What holds from the moment `at` the revocation of `p` landed: cached copies and rows still held
      predate it, and the tombstone outlives every copy they can make. */
  ghost predicate Sealed(w: World, p: string, at: real, id: nat, c: Config) {
    && Retired(w.s, p)
    && at <= w.s.now
    && p in w.s.tombs && w.s.tombs[p] >= at + TOMBSTONE_TTL
    && (p in w.s.cache ==> w.s.cache[p].expires <= at + c.delay + CACHE_TTL)
    && (forall k | k in w.requests :: ReadBefore(w.requests[k], p, at))
    && (id in w.requests && Prefix(w.requests[id].token) == p ==> Harmless(w.requests[id].phase, at))
  }

  predicate ReadBefore(q: Request, p: string, at: real) {
    Prefix(q.token) == p && q.phase.StoreEntry? ==> q.phase.read.at <= at
  }

  predicate Harmless(phase: Phase, at: real) {
    match phase
    case ReadCache(failed, checkedAt) => failed || checkedAt >= at + TOMBSTONE_TTL
    case StoreEntry(_) => false
    case Accepted(_) => false
    case _ => true
  }

  /** One step of a request for the revoked key, seen on its own. */
  lemma RevokedRequestStep(s: Shared, q: Request, ok: bool, c: Config, at: real)
    requires c.delay <= TOMBSTONE_TTL - CACHE_TTL && CanResume(s.now, q.phase, ok, c) && !c.splitFaults
    requires var p := Prefix(q.token);
      && Retired(s, p) && at <= s.now && RequestOk(s, q)
      && p in s.tombs && s.tombs[p] >= at + TOMBSTONE_TTL
      && (p in s.cache ==> s.cache[p].expires <= at + c.delay + CACHE_TTL)
      && (q.phase.StoreEntry? ==> q.phase.read.at <= at)
    ensures var (s', q') := RequestStep(s, q, ok); var p := Prefix(q.token);
      && (p in s'.cache ==> s'.cache[p].expires <= at + c.delay + CACHE_TTL)
      && !q'.phase.StoreEntry?
      && (Harmless(q.phase, at) ==> Harmless(q'.phase, at))
  {
  }

  lemma SealedResume(w: World, k: nat, ok: bool, c: Config, p: string, at: real, id: nat)
    requires Enabled(w, Resume(k, ok), c) && Sealed(w, p, at, id, c) && RequestOk(w.s, w.requests[k])
    requires c.delay <= TOMBSTONE_TTL - CACHE_TTL && !c.splitFaults
    ensures Sealed(Apply(w, Resume(k, ok), c), p, at, id, c)
  {
    var q := w.requests[k];
    RequestStepFrame(w.s, q, ok);
    assert ReadBefore(q, p, at);
    if Prefix(q.token) == p {
      RevokedRequestStep(w.s, q, ok, c, at);
    }
  }

  lemma SealedFrame(w: World, w': World, p: string, at: real, id: nat, c: Config)
    requires Sealed(w, p, at, id, c) && LeavesRequestsAlone(w, w')
    ensures Sealed(w', p, at, id, c)
  {
    assert Outlives(w.s, w'.s, p) && TombKept(w.s, w'.s, p);
    assert p in w'.s.cache ==> CopyKept(w.s, w'.s, p);
  }

  lemma SealedArrive(w: World, k: nat, token: string, redisUp: bool, p: string, at: real, id: nat, c: Config)
    requires Sealed(w, p, at, id, c) && k !in w.requests
    ensures Sealed(w.(requests := w.requests[k := Arrived(token, redisUp)]), p, at, id, c)
  {
  }

  lemma SealedStep(w: World, e: Event, c: Config, p: string, at: real, id: nat)
    requires Inv(w, c) && Enabled(w, e, c) && Sealed(w, p, at, id, c)
    requires c.delay <= TOMBSTONE_TTL - CACHE_TTL && !c.splitFaults
    ensures Sealed(Apply(w, e, c), p, at, id, c)
  {
    match e {
      case Resume(k, ok) =>
        assert RequestOk(w.s, w.requests[k]);
        SealedResume(w, k, ok, c, p, at, id);
      case Arrive(k, token, redisUp) =>
        SealedArrive(w, k, token, redisUp, p, at, id, c);
      case _ =>
        ManagementStep(w, e, c);
        SealedFrame(w, Apply(w, e, c), p, at, id, c);
    }
  }

  lemma {:induction false} SealedThroughout(r: Run, c: Config, i: nat, j: nat, p: string, id: nat)
    requires IsRun(r, c) && i < j < |r.states| && RevokedAt(r, i, p) && Unchecked(r.states[i + 1], id)
    requires c.delay <= TOMBSTONE_TTL - CACHE_TTL && !c.splitFaults
    ensures Sealed(r.states[j], p, r.states[i].s.now, id, c)
    decreases j
  {
    InvThroughout(r, c, j - 1);
    assert StepAt(r, j - 1, c);
    var w := r.states[j - 1];
    if j == i + 1 {
      forall k | k in w.requests ensures RequestOk(w.s, w.requests[k]) {}
    } else {
      SealedThroughout(r, c, i, j - 1, p, id);
      SealedStep(w, r.events[j - 1], c, p, r.states[i].s.now, id);
    }
  }

  // ---------- runs that break the promise ----------

  lemma Extend(r: Run, e: Event, c: Config) returns (r': Run)
    requires IsPath(r, c) && Enabled(r.states[|r.events|], e, c)
    ensures IsPath(r', c)
    ensures r' == Run(r.states + [Apply(r.states[|r.events|], e, c)], r.events + [e])
  {
    r' := Run(r.states + [Apply(r.states[|r.events|], e, c)], r.events + [e]);
    forall i | 0 <= i < |r'.events| ensures StepAt(r', i, c) {
      if i < |r.events| {
        assert StepAt(r, i, c);
      }
    }
  }

  const KEY := "k"
  const SOLE_ROW := Row(NIL_UUID, NIL_UUID, None, KEY, true, false)
  const START := World(Shared(0.0, map[KEY := SOLE_ROW], map[], map[]), map[], map[])

  lemma StartIsRun(c: Config)
    ensures IsRun(Run([START], []), c)
  {
    forall org: Uuid ensures |ActiveOf(START.s.rows, org)| <= MAX_KEYS_PER_ORG {
      var active := ActiveOf(START.s.rows, org);
      assert active == {} || active == {KEY};
    }
  }

  const READING := Request(KEY, true, StoreEntry(Read(SOLE_ROW, 0.0)))

  /** Request 0 reads the active row and is about to write its copy. */
  lemma ReadJustNow(c: Config) returns (r: Run)
    ensures IsRun(r, c) && |r.events| == 4
    ensures r.states[4] == START.(requests := map[0 := READING])
  {
    StartIsRun(c);
    r := Extend(Run([START], []), Arrive(0, KEY, true), c);
    r := Extend(r, Resume(0, true), c);
    r := Extend(r, Resume(0, true), c);
    r := Extend(r, Resume(0, true), c);
  }

  /** Then the key is revoked in the database and in Redis, all at time 0. */
  lemma RevokedWhileReading(c: Config) returns (r: Run)
    ensures IsRun(r, c) && |r.events| == 6 && RevokedAt(r, 5, KEY)
    ensures var w := r.states[6];
      && w.s.now == 0.0 && w.s.cache == map[] && w.s.tombs == map[KEY := TOMBSTONE_TTL]
      && w.requests == map[0 := READING]
  {
    r := ReadJustNow(c);
    r := Extend(r, Revoke(0, KEY), c);
    r := Extend(r, Invalidate(0, true), c);
  }

  /** With a live copy and the tombstone out of the way, the next request is told what the copy says. */
  lemma NextRequestServed(r: Run, c: Config, id: nat, token: string, checkOk: bool, info: KeyInfo) returns (r': Run)
    requires IsPath(r, c)
    requires var w := r.states[|r.events|]; var p := Prefix(token);
      && id !in w.requests && Cached(w.s, p) && Decode(token, w.s.cache[p].blob) == Hit(info)
      && if checkOk then !Tombstoned(w.s, p) else c.splitFaults
    ensures IsPath(r', c) && |r'.states| == |r.states| + 3 && r'.states[..|r.states|] == r.states
    ensures r'.events == r.events + [Arrive(id, token, true), Resume(id, checkOk), Resume(id, true)]
    ensures var w' := r'.states[|r'.events|];
      id in w'.requests && w'.requests[id] == Request(token, true, Accepted(info))
  {
    var r1 := Extend(r, Arrive(id, token, true), c);
    var r2 := Extend(r1, Resume(id, checkOk), c);
    r' := Extend(r2, Resume(id, true), c);
  }

  lemma StaleCopyIsServed(r: Run, c: Config, checkOk: bool)
    requires IsRun(r, c) && |r.events| >= 6 && RevokedAt(r, 5, KEY) && Unchecked(r.states[6], 1)
    requires var w := r.states[|r.events|];
      && 1 !in w.requests && Cached(w.s, KEY) && w.s.cache[KEY].blob == Encode(KEY, SOLE_ROW.Info())
      && if checkOk then !Tombstoned(w.s, KEY) else c.splitFaults
    ensures !RevocationSafe(c)
  {
    DecodeInvertsEncode(KEY, KEY, SOLE_ROW.Info());
    var r' := NextRequestServed(r, c, 1, KEY, checkOk, SOLE_ROW.Info());
    assert r'.states[0] == r.states[0] && r'.states[5] == r.states[5] && r'.states[6] == r.states[6];
    assert r'.events[5] == r.events[5];
    assert IsRun(r', c) && RevokedAt(r', 5, KEY) && Unchecked(r'.states[6], 1);
    assert AcceptedFor(r'.states[|r'.events|], 1, KEY);
    assert !RevocationUpheld(r');
  }

  /** A copy written more than 60 seconds after the read is still there when the tombstone expires. */
  lemma SlowWriteBreaksIt(c: Config)
    requires c.delay > TOMBSTONE_TTL - CACHE_TTL
    ensures !RevocationSafe(c)
  {
    var late := if c.delay < TOMBSTONE_TTL then c.delay else TOMBSTONE_TTL;
    var r := RevokedWhileReading(c);
    var r1 := Extend(r, Tick(late), c);
    var r2 := Extend(r1, Resume(0, true), c);
    var r3 := Extend(r2, Tick(TOMBSTONE_TTL - late), c);
    assert r3.states[6] == r.states[6] && RevokedAt(r3, 5, KEY);
    StaleCopyIsServed(r3, c, true);
  }

  /** With the tombstone check lost to an error, a copy written just after the revocation is served. */
  lemma SplitFaultBreaksIt(c: Config)
    requires c.delay >= 0.0 && c.splitFaults
    ensures !RevocationSafe(c)
  {
    var r := RevokedWhileReading(c);
    var r1 := Extend(r, Resume(0, true), c);
    assert r1.states[6] == r.states[6] && RevokedAt(r1, 5, KEY);
    StaleCopyIsServed(r1, c, false);
  }

  /** Revocation safety, and its exact price. */
  lemma RevocationSafeExactlyWhen(c: Config)
    requires c.delay >= 0.0
    ensures RevocationSafe(c) <==> c.delay <= 120.0 - 60.0 && !c.splitFaults
  {
    if c.delay > TOMBSTONE_TTL - CACHE_TTL {
      SlowWriteBreaksIt(c);
    } else if c.splitFaults {
      SplitFaultBreaksIt(c);
    } else {
      forall r: Run, i: nat, j: nat, id: nat, p |
        IsRun(r, c) && i < j < |r.states| && RevokedAt(r, i, p) && Unchecked(r.states[i + 1], id)
        ensures !AcceptedFor(r.states[j], id, p)
      {
        SealedThroughout(r, c, i, j, p, id);
      }
    }
  }

  // ---------- updates ----------

  predicate Touches(e: Event, p: string) {
    e.SetDebug? && e.prefix == p
  }

  /** In every continuation without another update of `p`, requests that were still unchecked are only
      ever accepted with the row's present values. */
  ghost predicate UpdateVisible(w: World, p: string, c: Config)
    requires p in w.s.rows
  {
    forall r: Run, j: nat, id: nat |
      && IsPath(r, c) && r.states[0] == w && (forall e | e in r.events :: !Touches(e, p))
      && j < |r.states| && Unchecked(w, id) && AcceptedFor(r.states[j], id, p) ::
      (var info := r.states[j].requests[id].phase.info;
       info.keyId == w.s.rows[p].keyId && info.orgId == w.s.rows[p].orgId && info.debug == w.s.rows[p].debug)
  }

  /** Request `k` read the row before the update and may still write what it read. */
  predicate HoldsStaleRow(w: World, k: nat, p: string, info: KeyInfo, c: Config) {
    && k in w.requests && Prefix(w.requests[k].token) == p && w.requests[k].phase.StoreEntry?
    && w.requests[k].phase.read.row.Info() != info
    && w.s.now <= w.requests[k].phase.read.at + c.delay
  }

  ghost predicate Current(w: World, p: string, info: KeyInfo, id: nat, c: Config) {
    && p in w.s.rows && w.s.rows[p].Info() == info
    && (p in w.s.cache ==> w.s.cache[p].origin.row.Info() == info)
    && (forall k | k in w.requests :: !HoldsStaleRow(w, k, p, info, c))
    && (id in w.requests && Prefix(w.requests[id].token) == p ==> Tells(w.requests[id].phase, info))
  }

  predicate Tells(phase: Phase, info: KeyInfo) {
    && (phase.StoreEntry? ==> phase.read.row.Info() == info)
    && (phase.Accepted? ==> phase.info == info)
  }

  /** One step of a request for the updated key, seen on its own. */
  lemma RequestStepTells(s: Shared, q: Request, ok: bool, c: Config, info: KeyInfo)
    requires var p := Prefix(q.token);
      && p in s.rows && s.rows[p].Info() == info
      && (p in s.cache ==> EntryOk(s, p, s.cache[p], c) && s.cache[p].origin.row.Info() == info)
      && (q.phase.StoreEntry? ==> q.phase.read.row.Info() == info)
    ensures var (s', q') := RequestStep(s, q, ok); var p := Prefix(q.token);
      && (p in s'.cache ==> s'.cache[p].origin.row.Info() == info)
      && (!q.phase.Accepted? ==> Tells(q'.phase, info))
  {
    if q.phase.ReadCache? && Cached(s, Prefix(q.token)) {
      var origin := s.cache[Prefix(q.token)].origin;
      DecodeInvertsEncode(origin.row.secret, q.token, origin.row.Info());
    }
  }

  lemma CurrentResume(w: World, k: nat, ok: bool, c: Config, p: string, info: KeyInfo, id: nat)
    requires Enabled(w, Resume(k, ok), c) && Current(w, p, info, id, c)
    requires p in w.s.cache ==> EntryOk(w.s, p, w.s.cache[p], c)
    ensures Current(Apply(w, Resume(k, ok), c), p, info, id, c)
  {
    var q := w.requests[k];
    var w' := Apply(w, Resume(k, ok), c);
    RequestStepFrame(w.s, q, ok);
    assert !HoldsStaleRow(w, k, p, info, c);
    if Prefix(q.token) == p {
      RequestStepTells(w.s, q, ok, c, info);
    }
    forall j | j in w'.requests ensures !HoldsStaleRow(w', j, p, info, c) {
      assert j in w.requests && !HoldsStaleRow(w, j, p, info, c);
    }
  }

  lemma CurrentStep(w: World, e: Event, c: Config, p: string, info: KeyInfo, id: nat)
    requires Inv(w, c) && Enabled(w, e, c) && Current(w, p, info, id, c) && !Touches(e, p)
    ensures Current(Apply(w, e, c), p, info, id, c)
  {
    var w' := Apply(w, e, c);
    match e {
      case Resume(k, ok) => CurrentResume(w, k, ok, c, p, info, id);
      case _ =>
        forall j | j in w'.requests ensures !HoldsStaleRow(w', j, p, info, c) {
          assert j in w.requests ==> !HoldsStaleRow(w, j, p, info, c);
        }
    }
  }

  lemma {:induction false} CurrentThroughout(r: Run, c: Config, p: string, info: KeyInfo, id: nat, n: nat)
    requires IsPath(r, c) && n < |r.states| && (forall e | e in r.events :: !Touches(e, p))
    requires Inv(r.states[0], c) && Current(r.states[0], p, info, id, c)
    ensures Current(r.states[n], p, info, id, c)
  {
    if n > 0 {
      CurrentThroughout(r, c, p, info, id, n - 1);
      InvThroughout(r, c, n - 1);
      assert StepAt(r, n - 1, c);
      CurrentStep(r.states[n - 1], r.events[n - 1], c, p, info, id);
    }
  }

  /** A request holding the old row puts it back into the cache for the next request to find. */
  lemma StaleRowResurfaces(w: World, p: string, c: Config, k: nat)
    requires Inv(w, c) && IsActive(w.s.rows, p) && HoldsStaleRow(w, k, p, w.s.rows[p].Info(), c)
    ensures !UpdateVisible(w, p, c)
  {
    var token, read := w.requests[k].token, w.requests[k].phase.read;
    assert RequestOk(w.s, w.requests[k]);
    DecodeInvertsEncode(token, token, read.row.Info());
    var id := FreshId(w.requests.Keys);
    var r := Extend(Run([w], []), Resume(k, true), c);
    var r' := NextRequestServed(r, c, id, token, true, read.row.Info());
    assert r'.states[0] == r.states[0] == w && Unchecked(w, id);
    assert AcceptedFor(r'.states[|r'.events|], id, p);
    assert r'.events == [Resume(k, true), Arrive(id, token, true), Resume(id, true), Resume(id, true)];
  }

  /** The promise made for updates, that the next request sees the new value, at the instant `p` has
      been deleted from the cache: kept if and only if no request in flight still holds the old row. */
  lemma UpdateVisibleExactlyWhen(w: World, p: string, c: Config)
    requires Inv(w, c) && IsActive(w.s.rows, p) && p !in w.s.cache
    ensures UpdateVisible(w, p, c) <==>
      forall k | k in w.requests :: !HoldsStaleRow(w, k, p, w.s.rows[p].Info(), c)
  {
    var info := w.s.rows[p].Info();
    if k :| k in w.requests && HoldsStaleRow(w, k, p, info, c) {
      StaleRowResurfaces(w, p, c, k);
    } else {
      forall r: Run, j: nat, id: nat |
        && IsPath(r, c) && r.states[0] == w && (forall e | e in r.events :: !Touches(e, p))
        && j < |r.states| && Unchecked(w, id) && AcceptedFor(r.states[j], id, p)
        ensures r.states[j].requests[id].phase.info == info
      {
        CurrentThroughout(r, c, p, info, id, j);
      }
    }
  }

  /** The failing case arises from an empty cache: a request reads the row, the debug flag is switched and
      the cache entry deleted, and the request has yet to write its copy. */
  lemma UpdateOvertaken(c: Config) returns (r: Run)
    requires c.delay >= 0.0
    ensures IsRun(r, c) && |r.events| == 6
    ensures r.events[4..] == [SetDebug(0, KEY, Some(true)), Invalidate(0, true)]
    ensures var w := r.states[6]; IsActive(w.s.rows, KEY) && !UpdateVisible(w, KEY, c)
  {
    r := ReadJustNow(c);
    r := Extend(r, SetDebug(0, KEY, Some(true)), c);
    r := Extend(r, Invalidate(0, true), c);
    var w := r.states[6];
    InvThroughout(r, c, 6);
    UpdateVisibleExactlyWhen(w, KEY, c);
    assert w.requests == map[0 := READING] && w.s.rows[KEY] == SOLE_ROW.(debug := true);
    assert HoldsStaleRow(w, 0, KEY, w.s.rows[KEY].Info(), c);
  }
}
