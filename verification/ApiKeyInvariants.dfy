/** What every step of the authentication protocol keeps, and the two run-independent consequences:
    nothing is refused that the database would accept, and no organization exceeds its key limit. */
module ApiKeyInvariants {
  import opened Options
  import opened CacheCodec
  import opened ApiKeyProtocol

  /** Keys are never deleted, reactivated or given another secret, and time does not go back. */
  ghost predicate Evolves(s: Shared, s': Shared) {
    && s.now <= s'.now
    && forall p | p in s.rows :: Outlives(s, s', p)
  }

  predicate Outlives(s: Shared, s': Shared, p: string)
    requires p in s.rows
  {
    p in s'.rows && s'.rows[p].secret == s.rows[p].secret && (s'.rows[p].active ==> s.rows[p].active)
  }

  /** `read` is an earlier lookup of the row with prefix `p`, active when it was read. */
  predicate Held(s: Shared, p: string, read: Read) {
    p in s.rows && read.row.active && read.row.secret == s.rows[p].secret && read.at <= s.now
  }

  predicate EntryOk(s: Shared, p: string, e: Entry, c: Config) {
    && Held(s, p, e.origin)
    && e.blob == Encode(e.origin.row.secret, e.origin.row.Info())
    && e.expires <= e.origin.at + c.delay + CACHE_TTL
  }

  predicate RequestOk(s: Shared, q: Request) {
    && (q.phase.StoreEntry? ==> Held(s, Prefix(q.token), q.phase.read) && q.phase.read.row.secret == q.token)
    && (q.phase.ReadCache? ==> q.phase.checkedAt <= s.now)
  }

  /** `p` names a key that has been deactivated, and so stays deactivated. */
  predicate Retired(s: Shared, p: string) {
    p in s.rows && !s.rows[p].active
  }

  ghost predicate Inv(w: World, c: Config) {
    && (forall p | p in w.s.rows :: Prefix(w.s.rows[p].secret) == p)
    && (forall p | p in w.s.tombs :: Retired(w.s, p))
    && (forall p | p in w.s.cache :: EntryOk(w.s, p, w.s.cache[p], c))
    && (forall id | id in w.requests :: RequestOk(w.s, w.requests[id]))
    && (forall id | id in w.pending :: w.pending[id].tombstone ==> Retired(w.s, w.pending[id].prefix))
  }

  lemma StepEvolves(w: World, e: Event, c: Config)
    requires Enabled(w, e, c)
    ensures Evolves(w.s, Apply(w, e, c).s)
  {
  }

  /** What key management and the passing of time do to requests, cache and tombstones: nothing is added
      to the cache, and a tombstone is at most renewed. */
  ghost predicate LeavesRequestsAlone(w: World, w': World) {
    && w'.requests == w.requests
    && Evolves(w.s, w'.s)
    && (forall p | p in w'.s.cache :: CopyKept(w.s, w'.s, p))
    && (forall p | p in w.s.tombs :: TombKept(w.s, w'.s, p))
  }

  predicate CopyKept(s: Shared, s': Shared, p: string)
    requires p in s'.cache
  {
    p in s.cache && s'.cache[p] == s.cache[p]
  }

  predicate TombKept(s: Shared, s': Shared, p: string)
    requires p in s.tombs
  {
    p in s'.tombs && (s'.tombs[p] == s.tombs[p] || s'.tombs[p] == s.now + TOMBSTONE_TTL)
  }

  lemma ManagementStep(w: World, e: Event, c: Config)
    requires Enabled(w, e, c) && !e.Resume? && !e.Arrive?
    ensures LeavesRequestsAlone(w, Apply(w, e, c))
  {
    StepEvolves(w, e, c);
  }

  lemma EvolutionKeeps(w: World, s': Shared, c: Config)
    requires Inv(w, c) && Evolves(w.s, s')
    ensures forall p, read | Held(w.s, p, read) :: Held(s', p, read)
    ensures forall p | Retired(w.s, p) :: Retired(s', p)
    ensures forall p | p in w.s.cache :: EntryOk(s', p, w.s.cache[p], c)
    ensures forall id | id in w.requests :: RequestOk(s', w.requests[id])
  {
    forall p | p in w.s.rows ensures Outlives(w.s, s', p) {}
  }

  /** A coroutine step touches nothing but its own prefix's cache entry and its own phase. */
  lemma RequestStepFrame(s: Shared, q: Request, ok: bool)
    ensures var (s', q') := RequestStep(s, q, ok);
      && s' == s.(cache := s'.cache) && q' == q.(phase := q'.phase)
      && forall p | p in s'.cache && p != Prefix(q.token) :: p in s.cache && s'.cache[p] == s.cache[p]
  {
  }

  /** One step of a request keeps its own cache entry and what it holds justified. */
  lemma RequestStepKeeps(s: Shared, q: Request, ok: bool, c: Config)
    requires RequestOk(s, q) && CanResume(s.now, q.phase, ok, c)
    requires var p := Prefix(q.token); p in s.cache ==> EntryOk(s, p, s.cache[p], c)
    ensures var (s', q') := RequestStep(s, q, ok); var p := Prefix(q.token);
      RequestOk(s', q') && (p in s'.cache ==> EntryOk(s', p, s'.cache[p], c))
  {
  }

  lemma InvResume(w: World, id: nat, ok: bool, c: Config)
    requires Inv(w, c) && Enabled(w, Resume(id, ok), c)
    ensures Inv(Apply(w, Resume(id, ok), c), c)
  {
    var q := w.requests[id];
    var w' := Apply(w, Resume(id, ok), c);
    assert RequestOk(w.s, q);
    RequestStepFrame(w.s, q, ok);
    RequestStepKeeps(w.s, q, ok, c);
    forall p | p in w'.s.cache && p != Prefix(q.token) ensures EntryOk(w'.s, p, w'.s.cache[p], c) {
      assert EntryOk(w.s, p, w.s.cache[p], c);
    }
    forall k | k in w'.requests ensures RequestOk(w'.s, w'.requests[k]) {
      assert k != id ==> RequestOk(w.s, w.requests[k]);
    }
  }

  /** Tombstones and pending invalidations are old ones, or concern keys that are retired now. */
  ghost predicate NewOnesRetired(w: World, w': World) {
    && (forall p | p in w'.s.tombs :: p in w.s.tombs || Retired(w'.s, p))
    && (forall id | id in w'.pending && w'.pending[id].tombstone ::
          (id in w.pending && w.pending[id] == w'.pending[id]) || Retired(w'.s, w'.pending[id].prefix))
  }

  lemma InvManaged(w: World, w': World, c: Config)
    requires Inv(w, c) && LeavesRequestsAlone(w, w') && NewOnesRetired(w, w')
    requires forall p | p in w'.s.rows :: Prefix(w'.s.rows[p].secret) == p
    ensures Inv(w', c)
  {
    EvolutionKeeps(w, w'.s, c);
    forall p | p in w'.s.cache ensures EntryOk(w'.s, p, w'.s.cache[p], c) {
      assert CopyKept(w.s, w'.s, p);
    }
  }

  lemma InvArrive(w: World, id: nat, token: string, redisUp: bool, c: Config)
    requires Inv(w, c) && id !in w.requests
    ensures Inv(w.(requests := w.requests[id := Arrived(token, redisUp)]), c)
  {
  }

  lemma RowsStayPrefixed(w: World, e: Event, c: Config)
    requires Inv(w, c) && Enabled(w, e, c) && !e.Resume?
    ensures var s' := Apply(w, e, c).s; forall p | p in s'.rows :: Prefix(s'.rows[p].secret) == p
  {
  }

  lemma NewOnesStep(w: World, e: Event, c: Config)
    requires Enabled(w, e, c) && !e.Resume? && !e.Arrive?
    requires forall id | id in w.pending :: w.pending[id].tombstone ==> Retired(w.s, w.pending[id].prefix)
    ensures NewOnesRetired(w, Apply(w, e, c))
  {
  }

  lemma InvStep(w: World, e: Event, c: Config)
    requires Inv(w, c) && Enabled(w, e, c)
    ensures Inv(Apply(w, e, c), c)
  {
    match e {
      case Resume(id, ok) => InvResume(w, id, ok, c);
      case Arrive(id, token, redisUp) => InvArrive(w, id, token, redisUp, c);
      case _ =>
        ManagementStep(w, e, c);
        NewOnesStep(w, e, c);
        RowsStayPrefixed(w, e, c);
        InvManaged(w, Apply(w, e, c), c);
    }
  }

  lemma {:induction false} InvThroughout(r: Run, c: Config, n: nat)
    requires IsPath(r, c) && (Init(r.states[0]) || Inv(r.states[0], c)) && n < |r.states|
    ensures Inv(r.states[n], c)
  {
    if n > 0 {
      InvThroughout(r, c, n - 1);
      assert StepAt(r, n - 1, c);
      InvStep(r.states[n - 1], r.events[n - 1], c);
    }
  }

  /** Between two points of a run keys only age. */
  lemma {:induction false} RunEvolves(r: Run, c: Config, i: nat, j: nat)
    requires IsRun(r, c) && i <= j < |r.states|
    ensures Evolves(r.states[i].s, r.states[j].s)
    decreases j
  {
    if i < j {
      RunEvolves(r, c, i, j - 1);
      assert StepAt(r, j - 1, c);
      StepEvolves(r.states[j - 1], r.events[j - 1], c);
      var s, t, u := r.states[i].s, r.states[j - 1].s, r.states[j].s;
      forall p | p in s.rows ensures Outlives(s, u, p) {
        assert Outlives(s, t, p) && Outlives(t, u, p);
      }
    }
  }

  /** No false rejections: whenever a request is refused, by the tombstone, by the cached digest or by
      the row lookup, a plain database check at that same instant refuses the token too. */
  lemma RejectionsAgreeWithDatabase(r: Run, c: Config, n: nat, id: nat)
    requires IsRun(r, c) && n < |r.events|
    requires id in r.states[n + 1].requests && r.states[n + 1].requests[id].phase.Rejected?
    requires id in r.states[n].requests ==> !r.states[n].requests[id].phase.Rejected?
    ensures var rows := r.states[n].s.rows; var token := r.states[n + 1].requests[id].token; var p := Prefix(token);
      !(p in rows && rows[p].active && rows[p].secret == token)
  {
    InvThroughout(r, c, n);
    assert StepAt(r, n, c);
    var w, e := r.states[n], r.events[n];
    var q := w.requests[id];
    var p := Prefix(q.token);
    if q.phase.ReadCache? && e.ok && Cached(w.s, p) {
      var entry := w.s.cache[p];
      assert EntryOk(w.s, p, entry, c);
      DecodeInvertsEncode(entry.origin.row.secret, q.token, entry.origin.row.Info());
    }
  }

  // ---------- the key limit ----------

  /** Creating is refused at the limit, and rotation trades one active key for another. */
  lemma KeyLimitStep(w: World, e: Event, c: Config, org: Uuid)
    requires Enabled(w, e, c) && |ActiveOf(w.s.rows, org)| <= MAX_KEYS_PER_ORG
    ensures |ActiveOf(Apply(w, e, c).s.rows, org)| <= MAX_KEYS_PER_ORG
  {
    var rows := w.s.rows;
    match e {
      case Create(row) => ActiveAfterInsert(rows, row, org);
      case Revoke(_, p) => ActiveAfterDeactivation(rows, p, org);
      case Rotate(_, p, row) => ActiveAfterRotation(rows, p, row, org);
      case SetDebug(_, p, debug) => ActiveAfterUpdate(rows, p, debug, org);
      case Resume(id, ok) => RequestStepFrame(w.s, w.requests[id], ok);
      case _ =>
    }
  }

  lemma ActiveAfterUpdate(rows: map<string, Row>, p: string, debug: Option<bool>, org: Uuid)
    requires p in rows
    ensures ActiveOf(WithDebug(rows, p, debug), org) == ActiveOf(rows, org)
  {
  }

  lemma ActiveAfterRotation(rows: map<string, Row>, p: string, row: Row, org: Uuid)
    requires IsActive(rows, p) && Insertable(rows, row) && row.orgId == rows[p].orgId
    ensures |ActiveOf(Deactivated(rows, p)[Prefix(row.secret) := row], org)| == |ActiveOf(rows, org)|
  {
    ActiveAfterDeactivation(rows, p, org);
    ActiveAfterInsert(Deactivated(rows, p), row, org);
  }

  lemma ActiveAfterInsert(rows: map<string, Row>, row: Row, org: Uuid)
    requires Insertable(rows, row)
    ensures var p := Prefix(row.secret);
      ActiveOf(rows[p := row], org) == ActiveOf(rows, org) + if row.orgId == org then {p} else {}
  {
  }

  lemma ActiveAfterDeactivation(rows: map<string, Row>, p: string, org: Uuid)
    requires IsActive(rows, p)
    ensures ActiveOf(Deactivated(rows, p), org) == ActiveOf(rows, org) - {p}
    ensures rows[p].orgId == org ==> |ActiveOf(Deactivated(rows, p), org)| == |ActiveOf(rows, org)| - 1
  {
    assert ActiveOf(Deactivated(rows, p), org) == ActiveOf(rows, org) - {p};
  }

  lemma {:induction false} KeyLimitHolds(r: Run, c: Config, n: nat, org: Uuid)
    requires IsRun(r, c) && n < |r.states|
    ensures var rows := r.states[n].s.rows; |set p | p in rows && rows[p].orgId == org && rows[p].active| <= 50
  {
    assert ActiveOf(r.states[n].s.rows, org)
      == set p | p in r.states[n].s.rows && r.states[n].s.rows[p].orgId == org && r.states[n].s.rows[p].active;
    if n > 0 {
      KeyLimitHolds(r, c, n - 1, org);
      assert StepAt(r, n - 1, c);
      KeyLimitStep(r.states[n - 1], r.events[n - 1], c, org);
    }
  }
}
