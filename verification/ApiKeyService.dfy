/** `get_current_api_key` and the key-management calls as the source writes them, step by step over the
    stored state, each tied to the protocol of `ApiKeyProtocol`: the authentication method to the
    request's own steps run without interleaving, key management to a commit followed by its
    invalidation. */
module ApiKeyService {
  import opened Options
  import opened CacheCodec
  import opened ApiKeyProtocol
  import opened ApiKeyInvariants
  import opened RevocationSafety
  import opened KeyNames

  /** Which Redis operations go through during one authentication. */
  datatype Faults = Faults(redisUp: bool, checkOk: bool, getOk: bool, dropOk: bool, setOk: bool)

  function OkIn(f: Faults, phase: Phase): bool {
    match phase
    case CheckTombstone => f.checkOk
    case ReadCache(_, _) => f.getOk
    case DropEntry => f.dropOk
    case StoreEntry(_) => f.setOk
    case _ => true
  }

  function Remaining(phase: Phase): nat {
    match phase
    case CheckTombstone => 5
    case ReadCache(_, _) => 4
    case DropEntry => 3
    case ReadRow => 2
    case StoreEntry(_) => 1
    case _ => 0
  }

  /** A request run to its end with nothing in between. */
  function Alone(s: Shared, q: Request, f: Faults): (Shared, Request)
    decreases Remaining(q.phase)
  {
    if q.phase.Final() then (s, q)
    else var (s', q') := RequestStep(s, q, OkIn(f, q.phase)); Alone(s', q', f)
  }

  lemma AloneStep(s: Shared, q: Request, f: Faults, s': Shared, q': Request)
    requires !q.phase.Final() && RequestStep(s, q, OkIn(f, q.phase)) == (s', q')
    ensures Alone(s, q, f) == if q'.phase.Final() then (s', q') else Alone(s', q', f)
  {
  }

  /** Running alone is one of the protocol's paths, so what holds of every path holds of the method. */
  lemma {:induction false} AloneIsPath(w: World, id: nat, f: Faults, c: Config) returns (r: Run)
    requires id in w.requests && c.delay >= 0.0 && (f.getOk && !f.checkOk ==> c.splitFaults)
    requires w.requests[id].phase.ReadCache? ==> (w.requests[id].phase.checkFailed ==> !f.checkOk)
    requires w.requests[id].phase.StoreEntry? ==> w.requests[id].phase.read.at == w.s.now
    ensures IsPath(r, c) && r.states[0] == w
    ensures var (s', q') := Alone(w.s, w.requests[id], f);
      r.states[|r.events|] == w.(s := s', requests := w.requests[id := q'])
    decreases Remaining(w.requests[id].phase)
  {
    var q := w.requests[id];
    if q.phase.Final() {
      r := Run([w], []);
      assert w.requests[id := q] == w.requests;
    } else {
      var e := Resume(id, OkIn(f, q.phase));
      var w' := Apply(w, e, c);
      var rest := AloneIsPath(w', id, f, c);
      r := Run([w] + rest.states, [e] + rest.events);
      forall i | 0 <= i < |r.events| ensures StepAt(r, i, c) {
        if i > 0 {
          assert StepAt(rest, i - 1, c);
        }
      }
      var (s', q') := Alone(w.s, q, f);
      assert w.requests[id := w'.requests[id]][id := q'] == w.requests[id := q'];
    }
  }

  // ---------- generated keys ----------

  datatype Environment = Live | Test

  const TEST_STEM := "tao_sk_test_"
  const LIVE_STEM := "tao_sk_live_"

  function GeneratedKey(env: Environment, suffix: string): string {
    (if env.Test? then TEST_STEM else LIVE_STEM) + suffix
  }

  function EnvironmentOf(prefix: string): Environment {
    if |prefix| >= 12 && prefix[..12] == TEST_STEM then Test else Live
  }

  /** The environment survives the cut to a prefix, so rotation keeps it. */
  lemma PrefixKeepsEnvironment(env: Environment, suffix: string)
    ensures EnvironmentOf(Prefix(GeneratedKey(env, suffix))) == env
  {
    var key := GeneratedKey(env, suffix);
    assert Prefix(key)[..12] == key[..12] == if env.Test? then TEST_STEM else LIVE_STEM;
    assert TEST_STEM[7] != LIVE_STEM[7];
  }

  /** The active row an organization's call names by id. */
  predicate Names(rows: map<string, Row>, p: string, keyId: Uuid, orgId: Uuid) {
    p in rows && rows[p].keyId == keyId && rows[p].orgId == orgId && rows[p].active
  }

  /** The organization has an active key of that id. */
  predicate Holds(rows: map<string, Row>, keyId: Uuid, orgId: Uuid) {
    exists p :: p in rows && rows[p].keyId == keyId && rows[p].orgId == orgId && rows[p].active
  }

  function AfterCommit(s: Shared, rows: map<string, Row>, v: Invalidation, ok: bool): Shared {
    var s' := s.(rows := rows);
    if ok then Invalidated(s', v) else s'
  }

  /** The whole stored state: the api_keys table and the two families of Redis keys. */
  class Gateway {
    var now: real
    var rows: map<string, Row>
    var cache: map<string, Entry>
    var tombs: map<string, real>

    function View(): Shared
      reads this
    {
      Shared(now, rows, cache, tombs)
    }

    /** What the table alone says about a token. */
    predicate FromTable(token: string, outcome: Phase)
      reads this
    {
      var p := Prefix(token);
      if p !in rows || !rows[p].active then outcome == Rejected(UnknownKey)
      else if rows[p].secret != token then outcome == Rejected(HashMismatch)
      else
        && outcome.Accepted?
        && outcome.info.keyId == rows[p].keyId && outcome.info.orgId == rows[p].orgId && outcome.info.debug == rows[p].debug
    }

    /** The cached text Redis hands out. */
    function Served(token: string, f: Faults): Option<Blob>
      reads this
    {
      var p := Prefix(token);
      if f.redisUp && f.getOk && p in cache && now < cache[p].expires then Some(cache[p].blob) else None
    }

    predicate Barred(token: string, f: Faults)
      reads this
    {
      var p := Prefix(token);
      f.redisUp && f.checkOk && p in tombs && now < tombs[p]
    }

    /** A tombstone bars; a readable copy for this token is believed and one for another refused; only a copy
        that cannot be parsed and not be deleted fails; everything else is up to the table. */
    method GetCurrentApiKey(credentials: Option<string>, f: Faults) returns (outcome: Phase)
      modifies this`cache
      ensures credentials.None? ==> outcome == Rejected(NoCredentials) && cache == old(cache)
      ensures credentials.Some? ==> var token := credentials.value;
        if old(Barred(token, f)) then outcome == Rejected(Revoked) && cache == old(cache)
        else if old(Served(token, f)).None? then old(FromTable(token, outcome))
        else match Decode(token, old(Served(token, f)).value)
             case Hit(info) => outcome == Accepted(info) && cache == old(cache)
             case Mismatch => outcome == Rejected(HashMismatch) && cache == old(cache)
             case Unusable => old(FromTable(token, outcome))
             case Corrupt => if f.dropOk then old(FromTable(token, outcome)) else outcome == Failed && cache == old(cache)
      ensures credentials.Some? ==>
        (View(), Request(credentials.value, f.redisUp, outcome)) == Alone(old(View()), Arrived(credentials.value, f.redisUp), f)
      ensures outcome.Final()
    {
      if credentials.None? {
        return Rejected(NoCredentials);
      }
      var token := credentials.value;
      if f.redisUp {
        outcome := TryRedis(token, f);
        if outcome.Final() {
          return;
        }
      }
      outcome := AskDatabase(token, f);
    }

    /** Tombstone, then cached credentials; `ReadRow` when neither settles the request. */
    method TryRedis(token: string, f: Faults) returns (outcome: Phase)
      requires f.redisUp
      modifies this`cache
      ensures outcome.Final() || outcome == ReadRow
      ensures if old(Barred(token, f)) then outcome == Rejected(Revoked) && cache == old(cache)
              else if old(Served(token, f)).None? then outcome == ReadRow && cache == old(cache)
              else match Decode(token, old(Served(token, f)).value)
                   case Hit(info) => outcome == Accepted(info) && cache == old(cache)
                   case Mismatch => outcome == Rejected(HashMismatch) && cache == old(cache)
                   case Unusable => outcome == ReadRow && cache == old(cache)
                   case Corrupt => if f.dropOk then outcome == ReadRow && cache == old(cache) - {Prefix(token)}
                                   else outcome == Failed && cache == old(cache)
      ensures Alone(old(View()), Arrived(token, true), f) == Alone(View(), Request(token, true, outcome), f)
    {
      var p := Prefix(token);
      if f.checkOk && p in tombs && now < tombs[p] {
        return Rejected(Revoked);
      }
      ghost var q := Request(token, true, ReadCache(!f.checkOk, now));
      AloneStep(View(), Arrived(token, true), f, View(), q);
      var cached: Option<Blob> := None;
      if f.getOk && p in cache && now < cache[p].expires {
        cached := Some(cache[p].blob);
      }
      if cached.Some? {
        match Decode(token, cached.value) {
          case Hit(info) => return Accepted(info);
          case Mismatch => return Rejected(HashMismatch);
          case Corrupt =>
            AloneStep(View(), q, f, View(), q.(phase := DropEntry));
            if !f.dropOk {
              return Failed;
            }
            cache := cache - {p};
          case Unusable =>
        }
      }
      return ReadRow;
    }

    /** The row lookup, and on success the best-effort cache write. */
    method AskDatabase(token: string, f: Faults) returns (outcome: Phase)
      modifies this`cache
      ensures outcome.Final() && FromTable(token, outcome)
      ensures !outcome.Accepted? || !f.redisUp || !f.setOk ==> cache == old(cache)
      ensures outcome.Accepted? && f.redisUp && f.setOk ==>
        var p := Prefix(token);
        && p in cache && cache == old(cache)[p := cache[p]]
        && cache[p].expires == now + 60.0 && Decode(token, cache[p].blob) == Hit(outcome.info)
      ensures (View(), Request(token, f.redisUp, outcome)) == Alone(old(View()), Request(token, f.redisUp, ReadRow), f)
    {
      var p := Prefix(token);
      if p !in rows || !rows[p].active {
        return Rejected(UnknownKey);
      }
      var record := rows[p];
      if record.secret != token {
        return Rejected(HashMismatch);
      }
      ghost var held := Request(token, f.redisUp, AfterRow(View(), Request(token, f.redisUp, ReadRow)));
      AloneStep(View(), Request(token, f.redisUp, ReadRow), f, View(), held);
      if f.redisUp {
        if f.setOk {
          cache := cache[p := Entry(Encode(token, record.Info()), now + CACHE_TTL, Read(record, now))];
          DecodeInvertsEncode(token, token, record.Info());
        }
        AloneStep(old(View()), held, f, View(), held.(phase := Accepted(record.Info())));
      }
      return Accepted(record.Info());
    }

    /** One more than the highest `Key N` the organization has ever used, so never a name it has; `Key 1`
        when it has used none. */
    method NextKeyName(orgId: Uuid) returns (name: string)
      ensures forall p | p in rows && rows[p].orgId == orgId :: rows[p].name != Some(name)
      ensures KeyNumber(name).Some? && name == NumberedName(KeyNumber(name).value)
      ensures forall p, n | p in rows && NumberIs(rows[p], orgId, n) :: n < KeyNumber(name).value
      ensures KeyNumber(name).value == 1 || exists p :: p in rows && NumberIs(rows[p], orgId, KeyNumber(name).value - 1)
    {
      var maxNum: nat := 0;
      var todo := rows.Keys;
      while todo != {}
        invariant todo <= rows.Keys
        invariant forall p | p in rows.Keys - todo && rows[p].orgId == orgId :: AtMost(rows[p], maxNum)
        invariant maxNum == 0 || exists p :: p in rows && NumberIs(rows[p], orgId, maxNum)
        decreases todo
      {
        var p :| p in todo;
        todo := todo - {p};
        if rows[p].orgId == orgId && rows[p].name.Some? {
          var m := KeyNumber(rows[p].name.value);
          if m.Some? && m.value > maxNum {
            maxNum := m.value;
            assert NumberIs(rows[p], orgId, maxNum);
          }
        }
      }
      name := NumberedName(maxNum + 1);
      NumberOfNumberedName(maxNum + 1);
      forall p | p in rows && rows[p].orgId == orgId ensures rows[p].name != Some(name) {
        assert AtMost(rows[p], maxNum);
      }
    }

    /** The generated key is fresh: its random suffix gives a prefix that no row has. */
    method CreateApiKey(orgId: Uuid, env: Environment, name: Option<string>, keyId: Uuid, suffix: string)
        returns (fullKey: Option<string>)
      requires Prefix(GeneratedKey(env, suffix)) !in rows
      modifies this`rows
      ensures fullKey.None? <==> |set p | p in old(rows) && old(rows)[p].orgId == orgId && old(rows)[p].active| >= 50
      ensures fullKey.None? ==> rows == old(rows)
      ensures fullKey.Some? ==>
        var p := Prefix(fullKey.value);
        && fullKey.value == (if env.Live? then "tao_sk_live_" else "tao_sk_test_") + suffix && p in rows
        && rows == old(rows)[p := Row(keyId, orgId, rows[p].name, fullKey.value, true, false)]
        && Insertable(old(rows), rows[p])
        && (name.Some? && Strip(name.value) != "" ==> rows[p].name == Some(Strip(name.value)))
        && (name.None? || Strip(name.value) == "" ==>
              forall k | k in old(rows) && old(rows)[k].orgId == orgId :: old(rows)[k].name != rows[p].name)
    {
      if |ActiveOf(rows, orgId)| >= MAX_KEYS_PER_ORG {
        return None;
      }
      var keyName;
      if name.Some? && Strip(name.value) != "" {
        keyName := Strip(name.value);
      } else {
        keyName := NextKeyName(orgId);
      }
      var full := GeneratedKey(env, suffix);
      rows := rows[Prefix(full) := Row(keyId, orgId, Some(keyName), full, true, false)];
      return Some(full);
    }

    /** Returns the prefix of the key it revoked; `redisOk` is false when Redis is down or raises. */
    method RevokeApiKey(keyId: Uuid, orgId: Uuid, redisOk: bool) returns (key: Option<string>)
      modifies this`rows, this`cache, this`tombs
      ensures key.None? ==> View() == old(View()) && !Holds(old(rows), keyId, orgId)
      ensures key.Some? ==> key.value in old(rows)
      ensures key.Some? ==>
        (var row := old(rows)[key.value];
         && row.keyId == keyId && row.orgId == orgId && row.active
         && rows == old(rows)[key.value := row.(active := false)])
      ensures key.Some? && redisOk ==> tombs == old(tombs)[key.value := now + 120.0] && cache == old(cache) - {key.value}
      ensures key.Some? && !redisOk ==> tombs == old(tombs) && cache == old(cache)
      ensures key.Some? ==>
        View() == AfterCommit(old(View()), Deactivated(old(rows), key.value), Invalidation(key.value, true), redisOk)
    {
      if p :| p in rows && Names(rows, p, keyId, orgId) {
        rows := rows[p := rows[p].(active := false)];
        if redisOk {
          tombs := tombs[p := now + TOMBSTONE_TTL];
          cache := cache - {p};
        }
        return Some(p);
      }
      return None;
    }

    /** Returns the new key and the old prefix.  The new key keeps the old one's name and environment. */
    method RotateApiKey(keyId: Uuid, orgId: Uuid, newId: Uuid, suffix: string, redisOk: bool)
        returns (result: Option<(string, string)>)
      requires forall env :: Prefix(GeneratedKey(env, suffix)) !in rows
      modifies this`rows, this`cache, this`tombs
      ensures result.None? ==> View() == old(View()) && !Holds(old(rows), keyId, orgId)
      ensures result.Some? ==>
        var (full, p) := result.value;
        && full == (if "tao_sk_test_" <= p then "tao_sk_test_" else "tao_sk_live_") + suffix
        && p in old(rows) && old(rows)[p].keyId == keyId && old(rows)[p].orgId == orgId && old(rows)[p].active
        && (if redisOk then tombs == old(tombs)[p := now + 120.0] && cache == old(cache) - {p}
            else tombs == old(tombs) && cache == old(cache))
        && var row := Row(newId, orgId, old(rows)[p].name, full, true, false);
        && Insertable(old(rows), row)
        && View() == AfterCommit(old(View()), Deactivated(old(rows), p)[Prefix(full) := row], Invalidation(p, true), redisOk)
        && |ActiveOf(rows, orgId)| == |ActiveOf(old(rows), orgId)|
    {
      if p :| p in rows && Names(rows, p, keyId, orgId) {
        var env := EnvironmentOf(p);
        var full := GeneratedKey(env, suffix);
        PrefixKeepsEnvironment(env, suffix);
        var row := Row(newId, orgId, rows[p].name, full, true, false);
        ActiveAfterRotation(rows, p, row, orgId);
        rows := rows[p := rows[p].(active := false)];
        rows := rows[Prefix(full) := row];
        if redisOk {
          tombs := tombs[p := now + TOMBSTONE_TTL];
          cache := cache - {p};
        }
        return Some((full, p));
      }
      return None;
    }

    method UpdateApiKey(keyId: Uuid, orgId: Uuid, debug: Option<bool>, redisOk: bool) returns (key: Option<string>)
      modifies this`rows, this`cache
      ensures key.None? ==> View() == old(View()) && !Holds(old(rows), keyId, orgId)
      ensures key.Some? ==> key.value in old(rows)
      ensures key.Some? ==>
        (var row := old(rows)[key.value];
         && row.keyId == keyId && row.orgId == orgId && row.active
         && rows == (if debug.Some? then old(rows)[key.value := row.(debug := debug.value)] else old(rows)))
      ensures key.Some? ==> cache == if redisOk then old(cache) - {key.value} else old(cache)
      ensures key.Some? ==>
        View() == AfterCommit(old(View()), WithDebug(old(rows), key.value, debug), Invalidation(key.value, false), redisOk)
    {
      if p :| p in rows && Names(rows, p, keyId, orgId) {
        if debug.Some? {
          rows := rows[p := rows[p].(debug := debug.value)];
        }
        if redisOk {
          cache := cache - {p};
        }
        return Some(p);
      }
      return None;
    }
  }

  predicate NumberIs(row: Row, orgId: Uuid, n: int) {
    row.orgId == orgId && row.name.Some? && KeyNumber(row.name.value).Some? && KeyNumber(row.name.value).value == n
  }

  predicate AtMost(row: Row, n: nat) {
    row.name.Some? ==> var m := KeyNumber(row.name.value); m.None? || m.value <= n
  }
}
