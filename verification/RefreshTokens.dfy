/** Refresh tokens: single use, replaced on every rotation, cleaned up on the way.

    Tokens are random and never repeat, and are stored under a collision-free hash, so a token names its
    row.  A rotation commits twice: it first revokes the old token, and then stores the new one.  A logout
    reads the row and writes it in a later statement, without locking it in between.
 */
module RefreshTokens {
  import opened Options

  type Token = nat
  type Org = nat

  datatype Row = Row(org: Org, expires: real, revokedAt: Option<real>)

  type Table = map<Token, Row>

  datatype Reason = Unknown | Revoked | Expired

  /** Why a rotation is refused, if it is. */
  function Refusal(rows: Table, token: Token, now: real): Option<Reason> {
    if token !in rows then Some(Unknown)
    else if rows[token].revokedAt.Some? then Some(Revoked)
    else if rows[token].expires < now then Some(Expired)
    else None
  }

  predicate Live(rows: Table, token: Token, now: real) {
    Refusal(rows, token, now).None?
  }

  predicate Unrevoked(rows: Table, token: Token) {
    token in rows && rows[token].revokedAt.None?
  }

  function WithToken(rows: Table, org: Org, token: Token, now: real, lifetime: real): Table {
    rows[token := Row(org, now + lifetime, None)]
  }

  function WithRevoked(rows: Table, token: Token, now: real): Table {
    if token in rows then rows[token := rows[token].(revokedAt := Some(now))] else rows
  }

  /** The opportunistic clean-up: dead rows of one organization go, `kept` stays. */
  function Cleaned(rows: Table, org: Org, kept: Token, now: real): Table {
    map t | t in rows && (rows[t].org != org || t == kept || (rows[t].expires >= now && rows[t].revokedAt.None?)) :: rows[t]
  }

  /** The first transaction of a rotation. */
  function Retired(rows: Table, token: Token, now: real): Table
    requires token in rows
  {
    Cleaned(WithRevoked(rows, token, now), rows[token].org, token, now)
  }

  /** A rotation takes away the life of the rotated token and of no other, whoever owns it. */
  lemma RotationSparesTheLiving(rows: Table, token: Token, now: real, other: Token)
    requires token in rows
    ensures Live(Retired(rows, token, now), other, now) <==> Live(rows, other, now) && other != token
    ensures other in rows && rows[other].org != rows[token].org ==> Get(Retired(rows, token, now), other) == Get(rows, other)
  {
  }

  /** What a completed rotation does to each row: the rotated one is revoked, the organization's other dead
      rows are deleted, the new one appears, and the rest stays. */
  lemma RotationRows(rows: Table, token: Token, now: real, minted: Token, created: real, lifetime: real, t: Token)
    requires token in rows && minted !in rows
    ensures var after := Get(WithToken(Retired(rows, token, now), rows[token].org, minted, created, lifetime), t);
      after == if t == minted then Some(Row(rows[token].org, created + lifetime, None))
               else if t == token then Some(Row(rows[token].org, rows[token].expires, Some(now)))
               else if t in rows && rows[t].org == rows[token].org && (rows[t].expires < now || rows[t].revokedAt.Some?) then None
               else Get(rows, t)
  {
  }

  // ---------- the service ----------

  datatype Outcome = Rotated(org: Org, token: Token) | Refused(reason: Reason) | Crashed

  class AuthService {
    const lifetime: real
    var rows: Table

    constructor (lifetime: real)
      ensures this.lifetime == lifetime && rows == map[]
    {
      this.lifetime := lifetime;
      rows := map[];
    }

    method CreateRefreshToken(org: Org, minted: Token, now: real) returns (token: Token)
      modifies this
      ensures token == minted && rows == WithToken(old(rows), org, minted, now, lifetime)
      ensures rows == old(rows)[minted := Row(org, now + lifetime, None)]
    {
      rows := rows[minted := Row(org, now + lifetime, None)];
      return minted;
    }

    /** The clock is read three times; with `fault` the process dies between the two commits. */
    method RotateRefreshToken(token: Token, minted: Token, checked: real, revoked: real, created: real, fault: bool)
      returns (outcome: Outcome)
      requires minted !in rows && checked <= revoked <= created
      modifies this
      ensures outcome.Refused? <==> Refusal(old(rows), token, checked).Some?
      ensures outcome.Refused? ==> Some(outcome.reason) == Refusal(old(rows), token, checked) && rows == old(rows)
      ensures outcome == Refused(Unknown) <==> token !in old(rows)
      ensures outcome == Refused(Revoked) <==> token in old(rows) && old(rows)[token].revokedAt.Some?
      ensures outcome == Refused(Expired) <==>
        token in old(rows) && old(rows)[token].revokedAt.None? && old(rows)[token].expires < checked
      ensures outcome.Crashed? ==> fault && token in old(rows) && rows == Retired(old(rows), token, revoked)
      ensures outcome.Rotated? ==> !fault && token in old(rows) && outcome == Rotated(old(rows)[token].org, minted)
      ensures outcome.Rotated? ==>
        token in old(rows) && rows == WithToken(Retired(old(rows), token, revoked), outcome.org, minted, created, lifetime)
      ensures !outcome.Refused? ==> !Live(rows, token, revoked)
      ensures outcome.Rotated? && lifetime >= 0.0 ==> Live(rows, minted, created)
    {
      if token !in rows {
        return Refused(Unknown);
      }
      var record := rows[token];
      if record.revokedAt.Some? {
        return Refused(Revoked);
      }
      if record.expires < checked {
        return Refused(Expired);
      }
      var session := rows[token := record.(revokedAt := Some(revoked))];
      session := map t | t in session &&
        !(session[t].org == record.org && (session[t].expires < revoked || session[t].revokedAt.Some?) && t != token) ::
        session[t];
      assert session == Retired(rows, token, revoked);
      rows := session;
      if fault {
        return Crashed;
      }
      var issued := CreateRefreshToken(record.org, minted, created);
      return Rotated(record.org, issued);
    }

    method RevokeRefreshToken(token: Token, now: real)
      modifies this
      ensures rows == if Unrevoked(old(rows), token) then WithRevoked(old(rows), token, now) else old(rows)
      ensures rows.Keys == old(rows).Keys && forall t | t in rows ::
        rows[t] == if t == token && old(rows)[t].revokedAt.None?
                   then Row(old(rows)[t].org, old(rows)[t].expires, Some(now)) else old(rows)[t]
    {
      if token in rows && rows[token].revokedAt.None? {
        rows := rows[token := rows[token].(revokedAt := Some(now))];
      }
    }
  }

  // ---------- all interleavings ----------

  /** Between its commits a rotation holds the organization; `root` is history: the login it descends from. */
  datatype Rotation = Rotation(org: Org, root: Token)

  /** `issued` is history: every token ever stored, with the login it descends from. */
  datatype World = World(now: real, rows: Table, issued: map<Token, Token>, rotations: map<nat, Rotation>,
                         logouts: map<nat, Token>)

  datatype Event =
    | Tick(elapsed: real)
    | Login(org: Org, minted: Token)
    | Retire(id: nat, token: Token, gap: real)
    | Replace(id: nat, minted: Token)
    | Abandon(id: nat)
    | ReadForLogout(id: nat, token: Token)
    | WriteLogout(id: nat)

  predicate Enabled(w: World, e: Event) {
    match e
    case Tick(elapsed) => elapsed >= 0.0
    case Login(_, minted) => minted !in w.issued
    case Retire(id, token, gap) => id !in w.rotations && Live(w.rows, token, w.now) && token in w.issued && gap >= 0.0
    case Replace(id, minted) => id in w.rotations && minted !in w.issued
    case Abandon(id) => id in w.rotations
    case ReadForLogout(id, token) => id !in w.logouts && Unrevoked(w.rows, token)
    case WriteLogout(id) => id in w.logouts
  }

  function Apply(w: World, e: Event, lifetime: real): World
    requires Enabled(w, e)
  {
    match e
    case Tick(elapsed) => w.(now := w.now + elapsed)
    case Login(org, minted) =>
      w.(rows := WithToken(w.rows, org, minted, w.now, lifetime), issued := w.issued[minted := minted])
    case Retire(id, token, gap) =>
      w.(now := w.now + gap, rows := Retired(w.rows, token, w.now + gap),
         rotations := w.rotations[id := Rotation(w.rows[token].org, w.issued[token])])
    case Replace(id, minted) =>
      var r := w.rotations[id];
      w.(rows := WithToken(w.rows, r.org, minted, w.now, lifetime), issued := w.issued[minted := r.root],
         rotations := w.rotations - {id})
    case Abandon(id) => w.(rotations := w.rotations - {id})
    case ReadForLogout(id, token) => w.(logouts := w.logouts[id := token])
    case WriteLogout(id) =>
      w.(rows := WithRevoked(w.rows, w.logouts[id], w.now), logouts := w.logouts - {id})
  }

  datatype Run = Run(states: seq<World>, events: seq<Event>)

  ghost predicate StepAt(r: Run, i: nat, lifetime: real)
    requires i < |r.events| < |r.states|
  {
    Enabled(r.states[i], r.events[i]) && r.states[i + 1] == Apply(r.states[i], r.events[i], lifetime)
  }

  ghost predicate IsPath(r: Run, lifetime: real) {
    |r.states| == |r.events| + 1 && forall i | 0 <= i < |r.events| :: StepAt(r, i, lifetime)
  }

  ghost predicate IsRun(r: Run, lifetime: real) {
    IsPath(r, lifetime) && r.states[0].(now := 0.0) == World(0.0, map[], map[], map[], map[])
  }

  // ---------- tokens are used once ----------

  predicate Spent(w: World, token: Token) {
    token in w.issued && !Live(w.rows, token, w.now)
  }

  lemma SpentStep(w: World, e: Event, lifetime: real, token: Token)
    requires Enabled(w, e) && Spent(w, token)
    ensures Spent(Apply(w, e, lifetime), token)
  {
  }

  /** A token that has been revoked, has expired or has been deleted is never accepted again. */
  lemma {:induction false} SpentForever(r: Run, lifetime: real, i: nat, j: nat, token: Token)
    requires IsPath(r, lifetime) && i <= j < |r.states| && Spent(r.states[i], token)
    ensures Spent(r.states[j], token)
    decreases j
  {
    if i < j {
      SpentForever(r, lifetime, i, j - 1, token);
      assert StepAt(r, j - 1, lifetime);
      SpentStep(r.states[j - 1], r.events[j - 1], lifetime, token);
    }
  }

  predicate Rotates(e: Event, token: Token) {
    e.Retire? && e.token == token
  }

  /** No token is ever rotated twice, however the requests overlap. */
  lemma RotatedOnce(r: Run, lifetime: real, i: nat, j: nat, token: Token)
    requires IsPath(r, lifetime) && i < j < |r.events| && Rotates(r.events[i], token)
    ensures !Rotates(r.events[j], token)
  {
    assert StepAt(r, i, lifetime) && StepAt(r, j, lifetime);
    SpentForever(r, lifetime, i + 1, j, token);
  }

  // ---------- lineages ----------

  predicate InLineage(w: World, token: Token, root: Token) {
    token in w.issued && w.issued[token] == root && Unrevoked(w.rows, token)
  }

  predicate Rotating(w: World, k: nat, root: Token) {
    k in w.rotations && w.rotations[k].root == root
  }

  /** Of one login there is at most one unrevoked token or one rotation between its commits, never both. */
  ghost predicate OneHolder(w: World, root: Token) {
    && (forall t, u | InLineage(w, t, root) && InLineage(w, u, root) :: t == u)
    && (forall j, k | Rotating(w, j, root) && Rotating(w, k, root) :: j == k)
    && (forall t, k | InLineage(w, t, root) :: !Rotating(w, k, root))
  }

  /** Every token stored, read for a logout or named as a login was issued. */
  ghost predicate AllIssued(w: World) {
    && (forall t | t in w.rows :: t in w.issued)
    && (forall t | t in w.issued :: w.issued[t] in w.issued)
    && (forall k | k in w.rotations :: w.rotations[k].root in w.issued)
    && (forall k | k in w.logouts :: w.logouts[k] in w.issued)
  }

  ghost predicate Inv(w: World) {
    AllIssued(w) && forall root :: OneHolder(w, root)
  }

  lemma RowsIssuedStep(w: World, e: Event, lifetime: real)
    requires (forall t | t in w.rows :: t in w.issued) && Enabled(w, e)
    ensures var w' := Apply(w, e, lifetime); forall t | t in w'.rows :: t in w'.issued
  {
  }

  lemma AllIssuedStep(w: World, e: Event, lifetime: real)
    requires AllIssued(w) && Enabled(w, e)
    ensures AllIssued(Apply(w, e, lifetime))
  {
    RowsIssuedStep(w, e, lifetime);
  }

  /** A step that starts or finishes nothing for a login. */
  lemma HolderKept(w: World, w': World, root: Token)
    requires OneHolder(w, root)
    requires forall t | InLineage(w', t, root) :: InLineage(w, t, root)
    requires forall k | Rotating(w', k, root) :: Rotating(w, k, root)
    ensures OneHolder(w', root)
  {
  }

  lemma HolderRetired(w: World, id: nat, token: Token, gap: real, lifetime: real)
    requires Enabled(w, Retire(id, token, gap)) && OneHolder(w, w.issued[token])
    ensures OneHolder(Apply(w, Retire(id, token, gap), lifetime), w.issued[token])
  {
    var w' := Apply(w, Retire(id, token, gap), lifetime);
    var root := w.issued[token];
    assert InLineage(w, token, root);
    forall t ensures !InLineage(w', t, root) {
      assert InLineage(w', t, root) ==> InLineage(w, t, root);
    }
    forall k | Rotating(w', k, root) ensures k == id {
      assert !Rotating(w, k, root);
    }
  }

  lemma HolderIssued(w: World, w': World, minted: Token, root: Token)
    requires forall t :: !InLineage(w, t, root)
    requires forall t | InLineage(w', t, root) :: t == minted || InLineage(w, t, root)
    requires forall k :: !Rotating(w', k, root)
    ensures OneHolder(w', root)
  {
  }

  /** Whether the step hands on, issues or ends what belongs to this login. */
  predicate Concerns(w: World, e: Event, root: Token)
    requires Enabled(w, e)
  {
    match e
    case Retire(_, token, _) => w.issued[token] == root
    case Login(_, minted) => minted == root
    case Replace(id, _) => w.rotations[id].root == root
    case _ => false
  }

  lemma HolderUnconcerned(w: World, e: Event, lifetime: real, root: Token)
    requires OneHolder(w, root) && Enabled(w, e) && !Concerns(w, e, root)
    ensures OneHolder(Apply(w, e, lifetime), root)
  {
    HolderKept(w, Apply(w, e, lifetime), root);
  }

  lemma HolderReplaced(w: World, id: nat, minted: Token, lifetime: real)
    requires Enabled(w, Replace(id, minted)) && OneHolder(w, w.rotations[id].root)
    ensures OneHolder(Apply(w, Replace(id, minted), lifetime), w.rotations[id].root)
  {
    var root := w.rotations[id].root;
    var w' := Apply(w, Replace(id, minted), lifetime);
    assert Rotating(w, id, root);
    forall k ensures !Rotating(w', k, root) {
      assert Rotating(w', k, root) ==> Rotating(w, k, root);
    }
    HolderIssued(w, w', minted, root);
  }

  lemma HolderStep(w: World, e: Event, lifetime: real, root: Token)
    requires AllIssued(w) && OneHolder(w, root) && Enabled(w, e)
    ensures OneHolder(Apply(w, e, lifetime), root)
  {
    if !Concerns(w, e, root) {
      HolderUnconcerned(w, e, lifetime, root);
    } else {
      match e {
        case Retire(id, token, gap) => HolderRetired(w, id, token, gap, lifetime);
        case Replace(id, minted) => HolderReplaced(w, id, minted, lifetime);
        case Login(_, minted) => HolderIssued(w, Apply(w, e, lifetime), minted, root);
      }
    }
  }

  lemma InvStep(w: World, e: Event, lifetime: real)
    requires Inv(w) && Enabled(w, e)
    ensures Inv(Apply(w, e, lifetime))
  {
    AllIssuedStep(w, e, lifetime);
    forall root ensures OneHolder(Apply(w, e, lifetime), root) {
      HolderStep(w, e, lifetime, root);
    }
  }

  lemma {:induction false} InvThroughout(r: Run, lifetime: real, n: nat)
    requires IsPath(r, lifetime) && Inv(r.states[0]) && n < |r.states|
    ensures Inv(r.states[n])
  {
    if n > 0 {
      InvThroughout(r, lifetime, n - 1);
      assert StepAt(r, n - 1, lifetime);
      InvStep(r.states[n - 1], r.events[n - 1], lifetime);
    }
  }

  /** A login never has two live tokens, and none while a rotation is between its commits. */
  lemma OneLiveTokenPerLogin(r: Run, lifetime: real, n: nat, t: Token, u: Token)
    requires IsRun(r, lifetime) && n < |r.states|
    requires var w := r.states[n];
      && t in w.issued && u in w.issued && w.issued[t] == w.issued[u]
      && Live(w.rows, t, w.now) && Live(w.rows, u, w.now)
    ensures t == u && NoRotation(r.states[n], r.states[n].issued[t])
  {
    InvThroughout(r, lifetime, n);
    var w := r.states[n];
    var root := w.issued[t];
    assert OneHolder(w, root) && InLineage(w, t, root) && InLineage(w, u, root);
  }

  // ---------- logging out ----------

  predicate NoLiveToken(w: World, root: Token) {
    forall t | t in w.issued && w.issued[t] == root :: !Live(w.rows, t, w.now)
  }

  predicate NoRotation(w: World, root: Token) {
    forall k | k in w.rotations :: !Rotating(w, k, root)
  }

  /** Whatever happens next, nobody holds a usable token of this login again. */
  ghost predicate LoggedOut(w: World, root: Token, lifetime: real) {
    forall r: Run, j: nat | IsPath(r, lifetime) && r.states[0] == w && j < |r.states| :: NoLiveToken(r.states[j], root)
  }

  lemma SignedOffStep(w: World, e: Event, lifetime: real, root: Token)
    requires root in w.issued && Enabled(w, e) && NoLiveToken(w, root) && NoRotation(w, root)
    ensures var w' := Apply(w, e, lifetime); root in w'.issued && NoLiveToken(w', root) && NoRotation(w', root)
  {
    var w' := Apply(w, e, lifetime);
    forall t | t in w'.issued && w'.issued[t] == root ensures !Live(w'.rows, t, w'.now) {
      assert t in w.issued && w.issued[t] == root;
      SpentStep(w, e, lifetime, t);
    }
  }

  lemma {:induction false} SignedOffThroughout(r: Run, lifetime: real, root: Token, n: nat)
    requires IsPath(r, lifetime) && n < |r.states|
    requires var w := r.states[0]; root in w.issued && NoLiveToken(w, root) && NoRotation(w, root)
    ensures var w := r.states[n]; root in w.issued && NoLiveToken(w, root) && NoRotation(w, root)
  {
    if n > 0 {
      SignedOffThroughout(r, lifetime, root, n - 1);
      assert StepAt(r, n - 1, lifetime);
      SignedOffStep(r.states[n - 1], r.events[n - 1], lifetime, root);
    }
  }

  /** A rotation between its commits brings the login back to life. */
  lemma RotationRevives(w: World, root: Token, lifetime: real, k: nat)
    requires lifetime >= 0.0 && k in w.rotations && w.rotations[k].root == root
    ensures !LoggedOut(w, root, lifetime)
  {
    var minted := FreshId(w.issued.Keys);
    var e := Replace(k, minted);
    var w' := Apply(w, e, lifetime);
    var r := Run([w, w'], [e]);
    assert StepAt(r, 0, lifetime);
    assert IsPath(r, lifetime) && r.states[1] == w';
    assert Live(w'.rows, minted, w'.now);
    assert !NoLiveToken(r.states[1], root);
  }

  lemma LoggedOutExactlyWhen(w: World, root: Token, lifetime: real)
    requires root in w.issued && lifetime >= 0.0
    ensures LoggedOut(w, root, lifetime) <==> NoLiveToken(w, root) && NoRotation(w, root)
  {
    if !NoRotation(w, root) {
      var k :| k in w.rotations && Rotating(w, k, root);
      RotationRevives(w, root, lifetime, k);
    } else if !NoLiveToken(w, root) {
      var r := Run([w], []);
      assert IsPath(r, lifetime) && r.states[0] == w;
    } else {
      forall r: Run, j: nat | IsPath(r, lifetime) && r.states[0] == w && j < |r.states|
        ensures NoLiveToken(r.states[j], root)
      {
        SignedOffThroughout(r, lifetime, root, j);
      }
    }
  }

  lemma LogoutInTime(w: World, w': World, token: Token)
    requires token in w.issued && OneHolder(w, w.issued[token]) && Unrevoked(w.rows, token)
    requires w' == w.(rows := WithRevoked(w.rows, token, w.now), logouts := w'.logouts)
    ensures NoLiveToken(w', w.issued[token]) && NoRotation(w', w.issued[token])
  {
    var root := w.issued[token];
    assert InLineage(w, token, root);
    forall t | t in w.issued && w.issued[t] == root ensures !Live(w'.rows, t, w'.now) {
      assert Live(w.rows, t, w.now) ==> InLineage(w, t, root);
    }
    forall k | k in w.rotations ensures !Rotating(w', k, root) {
      assert !Rotating(w, k, root);
    }
  }

  lemma LogoutTooLate(w: World, w': World, token: Token, root: Token)
    requires !Unrevoked(w.rows, token)
    requires w' == w.(rows := WithRevoked(w.rows, token, w.now), logouts := w'.logouts)
    ensures NoLiveToken(w', root) <==> NoLiveToken(w, root)
    ensures NoRotation(w', root) <==> NoRotation(w, root)
  {
    forall t ensures Live(w'.rows, t, w'.now) <==> Live(w.rows, t, w.now) {}
    forall k ensures Rotating(w', k, root) <==> Rotating(w, k, root) {}
  }

  /** A logout that writes while its token is still unrevoked ends the login for good; one that was overtaken
      by a rotation of that token leaves the rotation's new token alive. */
  lemma LogoutEndsTheLoginExactlyWhen(w: World, id: nat, lifetime: real)
    requires Inv(w) && id in w.logouts && lifetime >= 0.0
    ensures var token := w.logouts[id]; var root := w.issued[token];
      LoggedOut(Apply(w, WriteLogout(id), lifetime), root, lifetime) <==>
        Unrevoked(w.rows, token) || (NoLiveToken(w, root) && NoRotation(w, root))
  {
    var token := w.logouts[id];
    var root := w.issued[token];
    var w' := Apply(w, WriteLogout(id), lifetime);
    assert OneHolder(w, root);
    if Unrevoked(w.rows, token) {
      LogoutInTime(w, w', token);
    } else {
      LogoutTooLate(w, w', token, root);
    }
    LoggedOutExactlyWhen(w', root, lifetime);
  }

  lemma Extend(r: Run, e: Event, lifetime: real) returns (r': Run)
    requires IsRun(r, lifetime) && Enabled(r.states[|r.events|], e)
    ensures IsRun(r', lifetime) && r'.events == r.events + [e]
    ensures r'.states[|r'.events|] == Apply(r.states[|r.events|], e, lifetime)
  {
    r' := Run(r.states + [Apply(r.states[|r.events|], e, lifetime)], r.events + [e]);
    forall i | 0 <= i < |r'.events| ensures StepAt(r', i, lifetime) {
      if i < |r.events| {
        assert StepAt(r, i, lifetime);
      }
    }
  }

  /** A login, and a logout that has read its token. */
  lemma LogoutBegun(lifetime: real) returns (r: Run)
    ensures IsRun(r, lifetime) && r.events == [Login(0, 0), ReadForLogout(0, 0)]
    ensures r.states[2] == World(0.0, map[0 := Row(0, lifetime, None)], map[0 := 0], map[], map[0 := 0])
  {
    r := Run([World(0.0, map[], map[], map[], map[])], []);
    r := Extend(r, Login(0, 0), lifetime);
    r := Extend(r, ReadForLogout(0, 0), lifetime);
  }

  /** The failing case arises from an empty table: a login, a logout that has read the token, a rotation of
      the token, and the logout's write, after which the new token still lives. */
  lemma LogoutOvertaken(lifetime: real) returns (r: Run)
    requires lifetime >= 0.0
    ensures IsRun(r, lifetime)
    ensures r.events == [Login(0, 0), ReadForLogout(0, 0), Retire(0, 0, 0.0), Replace(0, 1), WriteLogout(0)]
    ensures var w := r.states[5]; Live(w.rows, 1, w.now) && !LoggedOut(w, 0, lifetime)
  {
    r := LogoutBegun(lifetime);
    r := Extend(r, Retire(0, 0, 0.0), lifetime);
    r := Extend(r, Replace(0, 1), lifetime);
    r := Extend(r, WriteLogout(0), lifetime);
    var w := r.states[5];
    assert w.issued == map[0 := 0, 1 := 0] && Live(w.rows, 1, w.now);
    LoggedOutExactlyWhen(w, 0, lifetime);
  }
}
