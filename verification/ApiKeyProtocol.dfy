/** API-key authentication as a timed, concurrent protocol.

    Every SQL transaction and every Redis command (or MULTI pipeline) is one atomic step; steps of
    different requests and of the key-management calls interleave freely.  A request is a program
    counter (`Phase`) plus what the coroutine holds in its local variables.  Reading the clock twice
    never goes backwards, and a Redis key set with a time-to-live is gone once that time has passed.
 */
module ApiKeyProtocol {
  import opened Options
  import opened CacheCodec

  const API_KEY_PREFIX_LENGTH := 20
  const MAX_KEYS_PER_ORG := 50
  const TOMBSTONE_TTL := 120.0
  const CACHE_TTL := 60.0

  /** A row of the api_keys table; `secret` stands for the argon2 hash, which only `secret` verifies. */
  datatype Row = Row(keyId: Uuid, orgId: Uuid, name: Option<string>, secret: string, active: bool, debug: bool) {
    function Info(): KeyInfo {
      KeyInfo(keyId, orgId, debug)
    }
  }

  /** What a database lookup returned, and when. */
  datatype Read = Read(row: Row, at: real)

  /** A cached credential.  `origin` is history, telling proofs which lookup it came from: no step reads it. */
  datatype Entry = Entry(blob: Blob, expires: real, origin: Read)

  /** The state all coroutines share.  The prefix column is unique, so it indexes the table; the Redis
      keys are derived from the prefix by a hash that is taken to be collision-free. */
  datatype Shared = Shared(now: real, rows: map<string, Row>, cache: map<string, Entry>, tombs: map<string, real>)

  function Prefix(token: string): (p: string)
    ensures p <= token && |p| == if |token| <= 20 then |token| else 20
  {
    if |token| <= API_KEY_PREFIX_LENGTH then token else token[..API_KEY_PREFIX_LENGTH]
  }

  predicate Tombstoned(s: Shared, p: string) {
    p in s.tombs && s.now < s.tombs[p]
  }

  predicate Cached(s: Shared, p: string) {
    p in s.cache && s.now < s.cache[p].expires
  }

  predicate IsActive(rows: map<string, Row>, p: string) {
    p in rows && rows[p].active
  }

  // ---------- one request ----------

  datatype Reason = NoCredentials | Revoked | HashMismatch | UnknownKey

  datatype Phase =
    | CheckTombstone
    | ReadCache(checkFailed: bool, checkedAt: real)
    | DropEntry
    | ReadRow
    | StoreEntry(read: Read)
    | Accepted(info: KeyInfo)
    | Rejected(reason: Reason)
    | Failed
  {
    predicate Final() {
      Accepted? || Rejected? || Failed?
    }
  }

  datatype Request = Request(token: string, redisUp: bool, phase: Phase)

  function Arrived(token: string, redisUp: bool): Request {
    Request(token, redisUp, if redisUp then CheckTombstone else ReadRow)
  }

  /** One atomic step of `get_current_api_key`; `ok` is false when a Redis command raises. */
  function RequestStep(s: Shared, q: Request, ok: bool): (Shared, Request) {
    var p := Prefix(q.token);
    match q.phase
    case CheckTombstone =>
      (s, q.(phase := if ok && Tombstoned(s, p) then Rejected(Revoked) else ReadCache(!ok, s.now)))
    case ReadCache(_, _) =>
      (s, q.(phase := if ok && Cached(s, p) then AfterLookup(Decode(q.token, s.cache[p].blob)) else ReadRow))
    case DropEntry =>
      if ok then (s.(cache := s.cache - {p}), q.(phase := ReadRow)) else (s, q.(phase := Failed))
    case ReadRow =>
      (s, q.(phase := AfterRow(s, q)))
    case StoreEntry(read) =>
      var s' := if ok then s.(cache := s.cache[p := Fresh(s.now, q.token, read)]) else s;
      (s', q.(phase := Accepted(read.row.Info())))
    case _ =>
      (s, q)
  }

  function AfterLookup(found: Lookup): Phase {
    match found
    case Hit(info) => Accepted(info)
    case Mismatch => Rejected(HashMismatch)
    case Corrupt => DropEntry
    case Unusable => ReadRow
  }

  function AfterRow(s: Shared, q: Request): Phase {
    var p := Prefix(q.token);
    if !IsActive(s.rows, p) then Rejected(UnknownKey)
    else if s.rows[p].secret != q.token then Rejected(HashMismatch)
    else if q.redisUp then StoreEntry(Read(s.rows[p], s.now))
    else Accepted(s.rows[p].Info())
  }

  function Fresh(now: real, token: string, read: Read): Entry {
    Entry(Encode(token, read.row.Info()), now + CACHE_TTL, read)
  }

  // ---------- key management: a database commit, then a best-effort Redis invalidation ----------

  /** The Redis half of revoke and rotate (`tombstone`) or of update. */
  datatype Invalidation = Invalidation(prefix: string, tombstone: bool)

  function Invalidated(s: Shared, v: Invalidation): Shared {
    s.(tombs := if v.tombstone then s.tombs[v.prefix := s.now + TOMBSTONE_TTL] else s.tombs,
       cache := s.cache - {v.prefix})
  }

  function Deactivated(rows: map<string, Row>, p: string): map<string, Row>
    requires p in rows
  {
    rows[p := rows[p].(active := false)]
  }

  function WithDebug(rows: map<string, Row>, p: string, debug: Option<bool>): map<string, Row>
    requires p in rows
  {
    if debug.Some? then rows[p := rows[p].(debug := debug.value)] else rows
  }

  function ActiveOf(rows: map<string, Row>, org: Uuid): set<string> {
    set p | p in rows && rows[p].orgId == org && rows[p].active
  }

  /** A row as `create_api_key` and `rotate_api_key` insert it, under a prefix not used before. */
  predicate Insertable(rows: map<string, Row>, row: Row) {
    Prefix(row.secret) !in rows && row.active && !row.debug
  }

  // ---------- the whole system ----------

  datatype World = World(s: Shared, requests: map<nat, Request>, pending: map<nat, Invalidation>)

  datatype Event =
    | Tick(elapsed: real)
    | Arrive(id: nat, token: string, redisUp: bool)
    | Resume(id: nat, ok: bool)
    | Create(row: Row)
    | Revoke(id: nat, prefix: string)
    | Rotate(id: nat, prefix: string, row: Row)
    | SetDebug(id: nat, prefix: string, debug: Option<bool>)
    | Invalidate(id: nat, ok: bool)

  /** `delay` bounds the time from a request's row read to its cache write.  With `splitFaults`, a request
      whose tombstone check raised may still have its cache read served. */
  datatype Config = Config(delay: real, splitFaults: bool)

  predicate Enabled(w: World, e: Event, c: Config) {
    match e
    case Tick(elapsed) => elapsed >= 0.0
    case Arrive(id, _, _) => id !in w.requests
    case Resume(id, ok) => id in w.requests && CanResume(w.s.now, w.requests[id].phase, ok, c)
    case Create(row) => Insertable(w.s.rows, row) && |ActiveOf(w.s.rows, row.orgId)| < MAX_KEYS_PER_ORG
    case Revoke(id, p) => id !in w.pending && IsActive(w.s.rows, p)
    case Rotate(id, p, row) =>
      id !in w.pending && IsActive(w.s.rows, p) && Insertable(w.s.rows, row) && row.orgId == w.s.rows[p].orgId
    case SetDebug(id, p, _) => id !in w.pending && IsActive(w.s.rows, p)
    case Invalidate(id, _) => id in w.pending
  }

  predicate CanResume(now: real, phase: Phase, ok: bool, c: Config) {
    && !phase.Final()
    && (phase.StoreEntry? ==> now <= phase.read.at + c.delay)
    && (phase.ReadCache? && phase.checkFailed && !c.splitFaults ==> !ok)
  }

  function Apply(w: World, e: Event, c: Config): World
    requires Enabled(w, e, c)
  {
    match e
    case Tick(elapsed) => w.(s := w.s.(now := w.s.now + elapsed))
    case Arrive(id, token, redisUp) => w.(requests := w.requests[id := Arrived(token, redisUp)])
    case Resume(id, ok) =>
      var (s, q) := RequestStep(w.s, w.requests[id], ok);
      w.(s := s, requests := w.requests[id := q])
    case Create(row) => w.(s := w.s.(rows := w.s.rows[Prefix(row.secret) := row]))
    case Revoke(id, p) => Committed(w, Deactivated(w.s.rows, p), id, Invalidation(p, true))
    case Rotate(id, p, row) =>
      Committed(w, Deactivated(w.s.rows, p)[Prefix(row.secret) := row], id, Invalidation(p, true))
    case SetDebug(id, p, debug) => Committed(w, WithDebug(w.s.rows, p, debug), id, Invalidation(p, false))
    case Invalidate(id, ok) =>
      w.(s := if ok then Invalidated(w.s, w.pending[id]) else w.s, pending := w.pending - {id})
  }

  function Committed(w: World, rows: map<string, Row>, id: nat, v: Invalidation): World {
    w.(s := w.s.(rows := rows), pending := w.pending[id := v])
  }

  /** Redis is empty and nothing is in flight; the table holds any well-formed rows. */
  ghost predicate Init(w: World) {
    && w.requests == map[] && w.pending == map[]
    && w.s.cache == map[] && w.s.tombs == map[]
    && (forall p | p in w.s.rows :: Prefix(w.s.rows[p].secret) == p)
    && (forall org: Uuid :: |ActiveOf(w.s.rows, org)| <= MAX_KEYS_PER_ORG)
  }

  /** A finite execution: the states passed through and the events between them. */
  datatype Run = Run(states: seq<World>, events: seq<Event>)

  /** An execution from any state; a run starts from an initial one. */
  ghost predicate IsPath(r: Run, c: Config) {
    && |r.states| == |r.events| + 1
    && forall i | 0 <= i < |r.events| :: StepAt(r, i, c)
  }

  ghost predicate IsRun(r: Run, c: Config) {
    IsPath(r, c) && Init(r.states[0])
  }

  ghost predicate StepAt(r: Run, i: nat, c: Config)
    requires i < |r.events| && |r.states| == |r.events| + 1
  {
    Enabled(r.states[i], r.events[i], c) && r.states[i + 1] == Apply(r.states[i], r.events[i], c)
  }
}
