/**
 * The refresh-token store: sessions issue a token, each token is exchanged for a fresh one at most once,
 * and a replay revokes everything its user holds. Every request is one atomic step.
 */
module RefreshTokens {
  import opened Wrappers

  datatype Row = Row(userId: string, tokenHash: string, expiresAt: int, usedAt: Option<int>, revokedAt: Option<int>)

  datatype RefreshError = InvalidToken | TokenRevoked | TokenExpired | ReplayDetected
                        | AccountDeactivated | PasswordChangeRequired | TokenCollision

  /**
   * The table, with the history of the run beside it: the session each row descends from, the user of
   * each session, and the hashes exchanged so far.
   */
  datatype State = State(rows: seq<Row>, session: seq<nat>, logins: seq<string>, exchanged: seq<string>)

  datatype Event =
    | Login(userId: string, newHash: string, now: int, lifetime: int)
    | Refresh(tokenHash: string, newHash: string, now: int, lifetime: int, isActive: bool, mustChangePassword: bool)
    | Logout(tokenHash: string, now: int)
    | RevokeAll(userId: string, now: int)

  const EMPTY := State([], [], [], [])

  /** The row under a unique hash. */
  function FindUnique(rows: seq<Row>, tokenHash: string): (r: Option<nat>)
    ensures r.Some? ==> r.value < |rows| && rows[r.value].tokenHash == tokenHash
    ensures r.None? <==> forall i :: 0 <= i < |rows| ==> rows[i].tokenHash != tokenHash
  {
    if rows == [] then None
    else if rows[|rows| - 1].tokenHash == tokenHash then Some(|rows| - 1)
    else FindUnique(rows[..|rows| - 1], tokenHash)
  }

  function RevokeRow(r: Row, now: int): Row {
    if r.revokedAt.Some? then r else r.(revokedAt := Some(now))
  }

  function RevokeUser(rows: seq<Row>, userId: string, now: int): (r: seq<Row>)
    ensures |r| == |rows|
    ensures forall i :: 0 <= i < |rows| ==> r[i] == if rows[i].userId == userId then RevokeRow(rows[i], now) else rows[i]
  {
    seq(|rows|, i requires 0 <= i < |rows| => if rows[i].userId == userId then RevokeRow(rows[i], now) else rows[i])
  }

  function Issue(s: State, userId: string, newHash: string, now: int, lifetime: int): State {
    if FindUnique(s.rows, newHash).Some? then s
    else
      s.(rows := s.rows + [Row(userId, newHash, now + lifetime, None, None)],
         session := s.session + [|s.logins|], logins := s.logins + [userId])
  }

  /** The outcome of a refresh request, tested in this order. */
  function Verdict(s: State, e: Event): Result<nat, RefreshError>
    requires e.Refresh?
  {
    var found := FindUnique(s.rows, e.tokenHash);
    if found.None? then Err(InvalidToken)
    else
      var row := s.rows[found.value];
      if row.revokedAt.Some? then Err(TokenRevoked)
      else if row.expiresAt <= e.now then Err(TokenExpired)
      else if row.usedAt.Some? then Err(ReplayDetected)
      else if !e.isActive then Err(AccountDeactivated)
      else if e.mustChangePassword then Err(PasswordChangeRequired)
      else if FindUnique(s.rows, e.newHash).Some? then Err(TokenCollision)
      else Ok(found.value)
  }

  predicate Consistent(s: State) {
    |s.session| == |s.rows|
  }

  function Exchange(s: State, e: Event): State
    requires e.Refresh? && Consistent(s)
  {
    var v := Verdict(s, e);
    if v.Ok? then
      var row := s.rows[v.value];
      s.(rows := s.rows[v.value := row.(usedAt := Some(e.now))] + [Row(row.userId, e.newHash, e.now + e.lifetime, None, None)],
         session := s.session + [s.session[v.value]], exchanged := s.exchanged + [e.tokenHash])
    else if v.error == ReplayDetected then
      s.(rows := RevokeUser(s.rows, s.rows[FindUnique(s.rows, e.tokenHash).value].userId, e.now))
    else if v.error == AccountDeactivated || v.error == PasswordChangeRequired then
      var k := FindUnique(s.rows, e.tokenHash).value;
      s.(rows := s.rows[k := s.rows[k].(revokedAt := Some(e.now))])
    else s
  }

  function Step(s: State, e: Event): (t: State)
    requires Consistent(s)
    ensures Consistent(t)
  {
    match e
    case Login(userId, newHash, now, lifetime) => Issue(s, userId, newHash, now, lifetime)
    case Refresh(_, _, _, _, _, _) => Exchange(s, e)
    case Logout(tokenHash, now) =>
      var k := FindUnique(s.rows, tokenHash);
      if k.Some? then s.(rows := s.rows[k.value := RevokeRow(s.rows[k.value], now)]) else s
    case RevokeAll(userId, now) => s.(rows := RevokeUser(s.rows, userId, now))
  }

  function Run(s: State, events: seq<Event>): (t: State)
    requires Consistent(s)
    ensures Consistent(t)
  {
    if events == [] then s else Step(Run(s, events[..|events| - 1]), events[|events| - 1])
  }

  // ---- the requests, on the rows alone

  ghost predicate HashTaken(rows: seq<Row>, h: string) {
    exists i :: 0 <= i < |rows| && rows[i].tokenHash == h
  }

  /** The token can be exchanged: its row is neither revoked nor used, and has not expired. */
  ghost predicate Exchangeable(rows: seq<Row>, k: nat, h: string, now: int) {
    k < |rows| && rows[k].tokenHash == h && rows[k].revokedAt == None && rows[k].usedAt == None && rows[k].expiresAt > now
  }

  /** The token was exchanged before, and its row is neither revoked nor expired. */
  ghost predicate Replayed(rows: seq<Row>, k: nat, h: string, now: int) {
    k < |rows| && rows[k].tokenHash == h && rows[k].revokedAt == None && rows[k].usedAt != None && rows[k].expiresAt > now
  }

  /** Exactly the unrevoked rows of the user become revoked, at this time. */
  ghost predicate UserRevoked(before: seq<Row>, after: seq<Row>, userId: string, now: int) {
    && |after| == |before|
    && (forall i :: 0 <= i < |before| && before[i].userId == userId && before[i].revokedAt == None ==>
          after[i] == before[i].(revokedAt := Some(now)))
    && (forall i :: 0 <= i < |before| && !(before[i].userId == userId && before[i].revokedAt == None) ==> after[i] == before[i])
  }

  /** Exactly the unrevoked row of the hash becomes revoked, at this time. */
  ghost predicate HashRevoked(before: seq<Row>, after: seq<Row>, h: string, now: int) {
    && |after| == |before|
    && (forall i :: 0 <= i < |before| && before[i].tokenHash == h && before[i].revokedAt == None ==>
          after[i] == before[i].(revokedAt := Some(now)))
    && (forall i :: 0 <= i < |before| && !(before[i].tokenHash == h && before[i].revokedAt == None) ==> after[i] == before[i])
  }

  /**
   * A refresh request succeeds exactly on an exchangeable token of an active user without a forced password
   * change, when the new hash is free; the row is then used, and a fresh row of the same user follows. A
   * deactivated user or a forced change revokes exactly that row, a replayed token every row of its user, and
   * any other failure changes nothing.
   */
  ghost predicate Refreshed(
      before: seq<Row>, after: seq<Row>, h: string, newHash: string, now: int, lifetime: int,
      isActive: bool, mustChangePassword: bool, ok: bool)
  {
    && (ok <==> isActive && !mustChangePassword && !HashTaken(before, newHash) && exists k: nat :: Exchangeable(before, k, h, now))
    && (forall k: nat :: Exchangeable(before, k, h, now) ==>
          if ok then
            after == before[k := before[k].(usedAt := Some(now))] + [Row(before[k].userId, newHash, now + lifetime, None, None)]
          else if !isActive || mustChangePassword then after == before[k := before[k].(revokedAt := Some(now))]
          else after == before)
    && (forall k: nat :: Replayed(before, k, h, now) ==> UserRevoked(before, after, before[k].userId, now))
    && ((forall k: nat :: !Exchangeable(before, k, h, now) && !Replayed(before, k, h, now)) ==> after == before)
  }

  ghost predicate UniqueHashes(rows: seq<Row>) {
    forall i, j :: 0 <= i < j < |rows| ==> rows[i].tokenHash != rows[j].tokenHash
  }

  lemma FoundIsTheRow(rows: seq<Row>, h: string, k: nat)
    requires UniqueHashes(rows) && k < |rows| && rows[k].tokenHash == h
    ensures FindUnique(rows, h) == Some(k)
  {
  }

  lemma TakenIsFound(rows: seq<Row>, h: string)
    ensures FindUnique(rows, h).Some? <==> HashTaken(rows, h)
  {
  }

  lemma RefreshMeans(s: State, e: Event)
    requires e.Refresh? && Consistent(s) && UniqueHashes(s.rows)
    ensures Refreshed(s.rows, Step(s, e).rows, e.tokenHash, e.newHash, e.now, e.lifetime, e.isActive, e.mustChangePassword,
                      Verdict(s, e).Ok?)
  {
    TakenIsFound(s.rows, e.newHash);
    hide FindUnique, HashTaken, UniqueHashes;
    var h, now, found := e.tokenHash, e.now, FindUnique(s.rows, e.tokenHash);
    if found.None? {
      assert Step(s, e) == s;
    } else {
      var k0 := found.value;
      forall k: nat | Exchangeable(s.rows, k, h, now) || Replayed(s.rows, k, h, now) ensures k == k0 {
        FoundIsTheRow(s.rows, h, k);
      }
      OneRow(s, e, k0);
      assert Exchangeable(s.rows, k0, h, now) || Replayed(s.rows, k0, h, now) || Step(s, e) == s;
    }
  }

  /** The request, told by the row found. */
  lemma OneRow(s: State, e: Event, k: nat)
    requires e.Refresh? && Consistent(s) && FindUnique(s.rows, e.tokenHash) == Some(k)
    ensures
      var row, t, ok := s.rows[k], Step(s, e).rows, Verdict(s, e).Ok?;
      && (ok <==> e.isActive && !e.mustChangePassword && FindUnique(s.rows, e.newHash).None? && Exchangeable(s.rows, k, e.tokenHash, e.now))
      && (ok ==> t == s.rows[k := row.(usedAt := Some(e.now))] + [Row(row.userId, e.newHash, e.now + e.lifetime, None, None)])
      && (Exchangeable(s.rows, k, e.tokenHash, e.now) && (!e.isActive || e.mustChangePassword) ==>
            t == s.rows[k := row.(revokedAt := Some(e.now))])
      && (Exchangeable(s.rows, k, e.tokenHash, e.now) && !ok && e.isActive && !e.mustChangePassword ==> t == s.rows)
      && (Replayed(s.rows, k, e.tokenHash, e.now) ==> UserRevoked(s.rows, t, row.userId, e.now))
      && (!Exchangeable(s.rows, k, e.tokenHash, e.now) && !Replayed(s.rows, k, e.tokenHash, e.now) ==> t == s.rows)
  {
    hide FindUnique;
  }

  lemma AllRevoked(s: State, userId: string, now: int)
    requires Consistent(s)
    ensures UserRevoked(s.rows, Step(s, RevokeAll(userId, now)).rows, userId, now)
  {
  }

  /** The answer to a request on a row, case by case. */
  lemma AnswerMeans(s: State, e: Event, k: nat)
    requires e.Refresh? && UniqueHashes(s.rows) && k < |s.rows| && s.rows[k].tokenHash == e.tokenHash
    ensures
      var row, v, live := s.rows[k], Verdict(s, e), Exchangeable(s.rows, k, e.tokenHash, e.now);
      && (v == Err(TokenRevoked) <==> row.revokedAt != None)
      && (v == Err(TokenExpired) <==> row.revokedAt == None && row.expiresAt <= e.now)
      && (v == Err(ReplayDetected) <==> Replayed(s.rows, k, e.tokenHash, e.now))
      && (v == Err(AccountDeactivated) <==> live && !e.isActive)
      && (v == Err(PasswordChangeRequired) <==> live && e.isActive && e.mustChangePassword)
      && (v == Err(TokenCollision) <==> live && e.isActive && !e.mustChangePassword && HashTaken(s.rows, e.newHash))
  {
    TakenIsFound(s.rows, e.newHash);
    hide FindUnique, HashTaken, UniqueHashes;
    FoundIsTheRow(s.rows, e.tokenHash, k);
  }

  lemma LoggedOut(s: State, h: string, now: int)
    requires Consistent(s) && UniqueHashes(s.rows)
    ensures HashRevoked(s.rows, Step(s, Logout(h, now)).rows, h, now)
  {
    hide FindUnique;
    forall k: nat | k < |s.rows| && s.rows[k].tokenHash == h ensures FindUnique(s.rows, h) == Some(k) {
      FoundIsTheRow(s.rows, h, k);
    }
  }

  // ---- the store object

  class TokenStore {
    const sha256: string -> string
    var rows: seq<Row>
    ghost var session: seq<nat>
    ghost var logins: seq<string>
    ghost var exchanged: seq<string>

    ghost function Model(): State
      reads this
    {
      State(rows, session, logins, exchanged)
    }

    ghost predicate Valid()
      reads this
    {
      Consistent(Model()) && Invariant(Model())
    }

    constructor (sha256: string -> string)
      ensures Valid() && Model() == EMPTY && this.sha256 == sha256
    {
      this.sha256 := sha256;
      rows, session, logins, exchanged := [], [], [], [];
      new;
      EmptyIsSound();
    }

    method IssueRefreshToken(userId: string, newRaw: string, now: int, lifetime: int) returns (ok: bool)
      requires Valid()
      modifies this`rows, this`session, this`logins
      ensures Valid() && Model() == Step(old(Model()), Login(userId, sha256(newRaw), now, lifetime))
      ensures ok ==> logins == old(logins) + [userId]
      ensures ok <==> !HashTaken(old(rows), sha256(newRaw))
      ensures rows == if ok then old(rows) + [Row(userId, sha256(newRaw), now + lifetime, None, None)] else old(rows)
    {
      hide Invariant;
      StepKeeps(Model(), Login(userId, sha256(newRaw), now, lifetime));
      var hash := sha256(newRaw);
      if FindUnique(rows, hash).Some? {
        return false;
      }
      rows := rows + [Row(userId, hash, now + lifetime, None, None)];
      session, logins := session + [|logins|], logins + [userId];
      ok := true;
    }

    method RefreshAccessToken(
        rawToken: string, newRaw: string, now: int, lifetime: int, isActive: bool, mustChangePassword: bool)
      returns (r: Result<string, RefreshError>)
      requires Valid()
      modifies this`rows, this`session, this`exchanged
      ensures Valid()
      ensures
        var e := Refresh(sha256(rawToken), sha256(newRaw), now, lifetime, isActive, mustChangePassword);
        && Model() == Step(old(Model()), e)
        && (r.Ok? <==> Verdict(old(Model()), e).Ok?)
        && (r.Ok? ==> r.value == newRaw)
        && (r.Err? ==> r == Err(Verdict(old(Model()), e).error))
      ensures Refreshed(old(rows), rows, sha256(rawToken), sha256(newRaw), now, lifetime, isActive, mustChangePassword, r.Ok?)
    {
      hide Invariant, Refreshed, FindUnique;
      var tokenHash, newHash := sha256(rawToken), sha256(newRaw);
      RefreshIsSound(Model(), Refresh(tokenHash, newHash, now, lifetime, isActive, mustChangePassword));
      var found := FindUnique(rows, tokenHash);
      if found.None? {
        return Err(InvalidToken);
      }
      var row := rows[found.value];
      if row.revokedAt.Some? {
        return Err(TokenRevoked);
      }
      if row.expiresAt <= now {
        return Err(TokenExpired);
      }
      if row.usedAt.Some? {
        rows := RevokeUser(rows, row.userId, now);
        return Err(ReplayDetected);
      }
      if !isActive {
        rows := rows[found.value := row.(revokedAt := Some(now))];
        return Err(AccountDeactivated);
      }
      if mustChangePassword {
        rows := rows[found.value := row.(revokedAt := Some(now))];
        return Err(PasswordChangeRequired);
      }
      if FindUnique(rows, newHash).Some? {
        return Err(TokenCollision);
      }
      rows := rows[found.value := row.(usedAt := Some(now))] + [Row(row.userId, newHash, now + lifetime, None, None)];
      session, exchanged := session + [session[found.value]], exchanged + [tokenHash];
      r := Ok(newRaw);
    }

    method RevokeRefreshToken(rawToken: string, now: int)
      requires Valid()
      modifies this`rows
      ensures Valid() && Model() == Step(old(Model()), Logout(sha256(rawToken), now))
      ensures HashRevoked(old(rows), rows, sha256(rawToken), now)
    {
      LoggedOut(Model(), sha256(rawToken), now);
      hide Invariant, HashRevoked;
      StepKeeps(Model(), Logout(sha256(rawToken), now));
      var k := FindUnique(rows, sha256(rawToken));
      if k.Some? && rows[k.value].revokedAt.None? {
        rows := rows[k.value := rows[k.value].(revokedAt := Some(now))];
      }
    }
  }

  // ---- the invariant

  predicate FreshIn(s: State, f: nat, i: nat) {
    i < |s.rows| && i < |s.session| && s.session[i] == f && s.rows[i].usedAt.None?
  }

  ghost predicate HasFresh(s: State, f: nat) {
    exists i :: FreshIn(s, f, i)
  }

  ghost predicate UsedHash(rows: seq<Row>, h: string) {
    exists i :: 0 <= i < |rows| && rows[i].tokenHash == h && rows[i].usedAt.Some?
  }

  /**
   * Hashes are unique; each session has exactly one token not exchanged yet, of the session's user; the
   * exchanged hashes are distinct and exactly the ones of used rows.
   */
  ghost predicate Invariant(s: State) {
    && |s.session| == |s.rows|
    && (forall i, j :: 0 <= i < j < |s.rows| ==> s.rows[i].tokenHash != s.rows[j].tokenHash)
    && (forall i :: 0 <= i < |s.rows| ==> s.session[i] < |s.logins| && s.rows[i].userId == s.logins[s.session[i]])
    && (forall f :: 0 <= f < |s.logins| ==> HasFresh(s, f))
    && (forall f: nat, i: nat, j: nat :: FreshIn(s, f, i) && FreshIn(s, f, j) ==> i == j)
    && Logged(s)
  }

  ghost predicate Logged(s: State) {
    && (forall i, j :: 0 <= i < j < |s.exchanged| ==> s.exchanged[i] != s.exchanged[j])
    && (forall h :: h in s.exchanged <==> UsedHash(s.rows, h))
  }

  lemma RefreshIsSound(s: State, e: Event)
    requires e.Refresh? && Consistent(s) && Invariant(s)
    ensures Invariant(Step(s, e))
    ensures Refreshed(s.rows, Step(s, e).rows, e.tokenHash, e.newHash, e.now, e.lifetime, e.isActive, e.mustChangePassword,
                      Verdict(s, e).Ok?)
  {
    InvariantIsUnique(s);
    hide Invariant, Refreshed, UniqueHashes, Step, Verdict;
    RefreshMeans(s, e);
    StepKeeps(s, e);
  }

  lemma InvariantIsUnique(s: State)
    requires Invariant(s)
    ensures UniqueHashes(s.rows)
  {
  }

  lemma EmptyIsSound()
    ensures Invariant(EMPTY)
  {
  }

  /** Changing only revocation times changes nothing the invariant looks at. */
  lemma OnlyRevocation(s: State, t: State)
    requires Invariant(s) && t.session == s.session && t.logins == s.logins && t.exchanged == s.exchanged
    requires |t.rows| == |s.rows|
    requires forall i :: 0 <= i < |s.rows| ==> t.rows[i] == s.rows[i].(revokedAt := t.rows[i].revokedAt)
    ensures Invariant(t)
  {
    hide Logged;
    assert forall f: nat, i: nat :: FreshIn(t, f, i) <==> FreshIn(s, f, i);
    forall f: nat | f < |t.logins| ensures HasFresh(t, f) {
      assert HasFresh(s, f);
      var i :| FreshIn(s, f, i);
      assert FreshIn(t, f, i);
    }
    LoggedSame(s, t);
  }

  lemma UsedSame(a: seq<Row>, b: seq<Row>, h: string)
    requires |a| <= |b| && UsedHash(a, h)
    requires forall i :: 0 <= i < |a| ==> b[i].tokenHash == a[i].tokenHash && (a[i].usedAt.Some? ==> b[i].usedAt.Some?)
    ensures UsedHash(b, h)
  {
    var i :| 0 <= i < |a| && a[i].tokenHash == h && a[i].usedAt.Some?;
    assert b[i].tokenHash == h && b[i].usedAt.Some?;
  }

  lemma LoggedSame(s: State, t: State)
    requires Logged(s) && t.exchanged == s.exchanged && |t.rows| == |s.rows|
    requires forall i :: 0 <= i < |s.rows| ==> t.rows[i].tokenHash == s.rows[i].tokenHash && t.rows[i].usedAt == s.rows[i].usedAt
    ensures Logged(t)
  {
    hide UsedHash;
    forall h ensures h in t.exchanged <==> UsedHash(t.rows, h) {
      assert h in s.exchanged <==> UsedHash(s.rows, h);
      if UsedHash(s.rows, h) { UsedSame(s.rows, t.rows, h); }
      if UsedHash(t.rows, h) { UsedSame(t.rows, s.rows, h); }
    }
  }

  lemma LoginKeeps(s: State, userId: string, newHash: string, now: int, lifetime: int)
    requires Invariant(s)
    ensures Invariant(Issue(s, userId, newHash, now, lifetime))
  {
    hide Logged, FindUnique;
    var t := Issue(s, userId, newHash, now, lifetime);
    if FindUnique(s.rows, newHash).None? {
      var n := |s.rows|;
      LoggedAppend(s, t, t.rows[n]);
      forall f: nat, i: nat ensures FreshIn(t, f, i) <==> (FreshIn(s, f, i) || (i == n && f == |s.logins|)) {}
      assert FreshIn(t, |s.logins|, n);
      forall f | 0 <= f < |t.logins| ensures HasFresh(t, f) {
        if f < |s.logins| {
          assert HasFresh(s, f);
          var i :| FreshIn(s, f, i);
          assert FreshIn(t, f, i);
        }
      }
      forall f: nat, i: nat, j: nat | FreshIn(t, f, i) && FreshIn(t, f, j) ensures i == j {
        if i < n && j < n { assert FreshIn(s, f, i) && FreshIn(s, f, j); }
      }
    }
  }

  lemma UsedAppend(rows: seq<Row>, r: Row, h: string)
    ensures UsedHash(rows + [r], h) <==> (UsedHash(rows, h) || (r.tokenHash == h && r.usedAt.Some?))
  {
    var all := rows + [r];
    if UsedHash(rows, h) { UsedSame(rows, all, h); }
    assert all[|rows|] == r;
    if UsedHash(all, h) {
      var i :| 0 <= i < |all| && all[i].tokenHash == h && all[i].usedAt.Some?;
      if i < |rows| { assert rows[i].tokenHash == h; }
    }
  }

  lemma UsedUpdate(rows: seq<Row>, k: nat, now: int, h: string)
    requires k < |rows|
    ensures UsedHash(rows[k := rows[k].(usedAt := Some(now))], h) <==> (UsedHash(rows, h) || rows[k].tokenHash == h)
  {
    var all := rows[k := rows[k].(usedAt := Some(now))];
    if UsedHash(rows, h) { UsedSame(rows, all, h); }
    if rows[k].tokenHash == h { assert all[k].tokenHash == h && all[k].usedAt.Some?; }
    if UsedHash(all, h) {
      var i :| 0 <= i < |all| && all[i].tokenHash == h && all[i].usedAt.Some?;
      if i != k { assert rows[i].tokenHash == h; }
    }
  }

  lemma LoggedAppend(s: State, t: State, r: Row)
    requires Logged(s) && t.exchanged == s.exchanged && t.rows == s.rows + [r] && r.usedAt.None?
    ensures Logged(t)
  {
    hide UsedHash;
    forall h ensures h in t.exchanged <==> UsedHash(t.rows, h) {
      assert h in s.exchanged <==> UsedHash(s.rows, h);
      UsedAppend(s.rows, r, h);
    }
  }

  lemma ExchangeKeeps(s: State, e: Event, k: nat)
    requires e.Refresh? && Invariant(s) && Verdict(s, e) == Ok(k)
    ensures Invariant(Exchange(s, e))
  {
    hide Logged, FindUnique;
    var t := Exchange(s, e);
    var n, f0 := |s.rows|, s.session[k];
    assert FreshIn(s, f0, k);
    forall f: nat, i: nat ensures FreshIn(t, f, i) <==> (if i == n then f == f0 else FreshIn(s, f, i) && i != k) {}
    forall f | 0 <= f < |t.logins| ensures HasFresh(t, f) {
      if f == f0 {
        assert FreshIn(t, f, n);
      } else {
        assert HasFresh(s, f);
        var i :| FreshIn(s, f, i);
        assert FreshIn(t, f, i);
      }
    }
    forall f: nat, i: nat, j: nat | FreshIn(t, f, i) && FreshIn(t, f, j) ensures i == j {
      if i != n { assert FreshIn(s, f, i); }
      if j != n { assert FreshIn(s, f, j); }
    }
    LoggedExchange(s, t, e, k);
  }

  lemma LoggedExchange(s: State, t: State, e: Event, k: nat)
    requires e.Refresh? && Invariant(s) && Verdict(s, e) == Ok(k) && t == Exchange(s, e)
    ensures Logged(t)
  {
    hide FindUnique, FreshIn, UsedHash;
    var h := e.tokenHash;
    var used := s.rows[k := s.rows[k].(usedAt := Some(e.now))];
    NotUsedYet(s, k);
    forall x ensures x in t.exchanged <==> UsedHash(t.rows, x) {
      assert x in s.exchanged <==> UsedHash(s.rows, x);
      UsedUpdate(s.rows, k, e.now, x);
      UsedAppend(used, t.rows[|s.rows|], x);
      assert t.rows == used + [t.rows[|s.rows|]];
    }
  }

  lemma NotUsedYet(s: State, k: nat)
    requires Invariant(s) && k < |s.rows| && s.rows[k].usedAt.None?
    ensures !UsedHash(s.rows, s.rows[k].tokenHash)
  {
    hide FreshIn, Logged;
  }

  lemma StepKeeps(s: State, e: Event)
    requires Consistent(s) && Invariant(s)
    ensures Invariant(Step(s, e))
  {
    hide Invariant, FindUnique;
    match e
    case Login(userId, newHash, now, lifetime) => LoginKeeps(s, userId, newHash, now, lifetime);
    case Refresh(_, _, _, _, _, _) =>
      if Verdict(s, e).Ok? { ExchangeKeeps(s, e, Verdict(s, e).value); } else { OnlyRevocation(s, Exchange(s, e)); }
    case Logout(_, _) => OnlyRevocation(s, Step(s, e));
    case RevokeAll(_, _) => OnlyRevocation(s, Step(s, e));
  }

  lemma {:induction false} RunKeeps(s: State, events: seq<Event>)
    requires Consistent(s) && Invariant(s)
    ensures Invariant(Run(s, events))
  {
    hide Invariant, Step;
    if events != [] {
      RunKeeps(s, events[..|events| - 1]);
      StepKeeps(Run(s, events[..|events| - 1]), events[|events| - 1]);
    }
  }

  /** In every run, no token is exchanged twice, and each session keeps exactly one token that was never used. */
  lemma ExchangedAtMostOnce(events: seq<Event>)
    ensures
      var s := Run(EMPTY, events);
      && (forall i, j :: 0 <= i < j < |s.exchanged| ==> s.exchanged[i] != s.exchanged[j])
      && (forall f :: 0 <= f < |s.logins| ==> HasFresh(s, f))
      && (forall f: nat, i: nat, j: nat :: FreshIn(s, f, i) && FreshIn(s, f, j) ==> i == j)
  {
    hide Run, FreshIn;
    EmptyIsSound();
    RunKeeps(EMPTY, events);
  }

  // ---- never-used tokens against sessions, per user

  function UnusedOf(rows: seq<Row>, userId: string): nat {
    if rows == [] then 0
    else
      var r := rows[|rows| - 1];
      UnusedOf(rows[..|rows| - 1], userId) + if r.userId == userId && r.usedAt.None? then 1 else 0
  }

  function LoginsOf(logins: seq<string>, userId: string): nat {
    if logins == [] then 0
    else LoginsOf(logins[..|logins| - 1], userId) + if logins[|logins| - 1] == userId then 1 else 0
  }

  lemma UnusedAppend(rows: seq<Row>, r: Row, userId: string)
    ensures UnusedOf(rows + [r], userId) == UnusedOf(rows, userId) + if r.userId == userId && r.usedAt.None? then 1 else 0
  {
    assert (rows + [r])[..|rows|] == rows;
  }

  lemma {:induction false} UnusedUpdate(rows: seq<Row>, k: nat, r: Row, userId: string)
    requires k < |rows|
    ensures UnusedOf(rows[k := r], userId)
      == UnusedOf(rows, userId)
         - (if rows[k].userId == userId && rows[k].usedAt.None? then 1 else 0)
         + (if r.userId == userId && r.usedAt.None? then 1 else 0)
  {
    var n := |rows| - 1;
    if k == n {
      assert rows[k := r][..n] == rows[..n];
    } else {
      assert rows[k := r][..n] == rows[..n][k := r];
      UnusedUpdate(rows[..n], k, r, userId);
    }
  }

  lemma {:induction false} UnusedSame(a: seq<Row>, b: seq<Row>, userId: string)
    requires |a| == |b| && forall i :: 0 <= i < |a| ==> a[i].userId == b[i].userId && a[i].usedAt == b[i].usedAt
    ensures UnusedOf(a, userId) == UnusedOf(b, userId)
  {
    if a != [] { UnusedSame(a[..|a| - 1], b[..|b| - 1], userId); }
  }

  lemma CountStep(s: State, e: Event, userId: string)
    requires Consistent(s) && UnusedOf(s.rows, userId) == LoginsOf(s.logins, userId)
    ensures UnusedOf(Step(s, e).rows, userId) == LoginsOf(Step(s, e).logins, userId)
  {
    hide UnusedOf, FindUnique;
    var t := Step(s, e);
    if e.Login? && t != s {
      UnusedAppend(s.rows, t.rows[|s.rows|], userId);
      assert t.logins[..|s.logins|] == s.logins;
    } else if e.Refresh? && Verdict(s, e).Ok? {
      var k := Verdict(s, e).value;
      var used := s.rows[k].(usedAt := Some(e.now));
      UnusedUpdate(s.rows, k, used, userId);
      UnusedAppend(s.rows[k := used], t.rows[|s.rows|], userId);
    } else {
      UnusedSame(s.rows, t.rows, userId);
    }
  }

  /** In every run, a user has exactly as many never-used tokens as sessions were issued to that user. */
  lemma {:induction false} UnusedTokensCountSessions(events: seq<Event>, userId: string)
    ensures UnusedOf(Run(EMPTY, events).rows, userId) == LoginsOf(Run(EMPTY, events).logins, userId)
  {
    hide Step;
    if events != [] {
      UnusedTokensCountSessions(events[..|events| - 1], userId);
      CountStep(Run(EMPTY, events[..|events| - 1]), events[|events| - 1], userId);
    }
  }

  // ---- revocation

  /** Rows are never removed; hash, user and expiry never change; use and revocation, once set, stay as set. */
  ghost predicate Persists(s: State, t: State) {
    && |s.rows| <= |t.rows|
    && forall i :: 0 <= i < |s.rows| ==> RowPersists(s.rows[i], t.rows[i])
  }

  predicate RowPersists(a: Row, b: Row) {
    && a.userId == b.userId && a.tokenHash == b.tokenHash && a.expiresAt == b.expiresAt
    && (a.usedAt.Some? ==> b.usedAt == a.usedAt)
    && (a.revokedAt.Some? ==> b.revokedAt == a.revokedAt && b.usedAt == a.usedAt)
  }

  lemma StepPersists(s: State, e: Event)
    requires Consistent(s)
    ensures Persists(s, Step(s, e))
  {
    hide FindUnique;
  }

  /** A revoked token stays revoked, with its time, and is never exchanged afterwards. */
  lemma {:induction false} RevocationIsPermanent(s: State, events: seq<Event>)
    requires Consistent(s)
    ensures Persists(s, Run(s, events))
  {
    hide Step;
    if events != [] {
      var mid := Run(s, events[..|events| - 1]);
      RevocationIsPermanent(s, events[..|events| - 1]);
      StepPersists(mid, events[|events| - 1]);
    }
  }

  /** What an exchange in a run went through: a request of an active user on an exchangeable token. */
  ghost predicate Earned(events: seq<Event>, i: nat, h: string) {
    && i < |events| && events[i].Refresh? && events[i].tokenHash == h
    && events[i].isActive && !events[i].mustChangePassword
    && exists k: nat :: Exchangeable(Run(EMPTY, events[..i]).rows, k, h, events[i].now)
  }

  /** In every run, each exchanged token was exchanged by a request of an active user without a forced password change. */
  lemma {:induction false} EveryExchangeIsEarned(events: seq<Event>, h: string)
    requires h in Run(EMPTY, events).exchanged
    ensures exists i: nat :: Earned(events, i, h)
  {
    hide Step, Exchangeable;
    var n := |events| - 1;
    var s, e := Run(EMPTY, events[..n]), events[n];
    if h in s.exchanged {
      EveryExchangeIsEarned(events[..n], h);
      var i: nat :| Earned(events[..n], i, h);
      EarnedEarlier(events, i, h);
    } else {
      AnsweredOk(s, e);
      assert Earned(events, n, h);
    }
  }

  lemma EarnedEarlier(events: seq<Event>, i: nat, h: string)
    requires events != [] && Earned(events[..|events| - 1], i, h)
    ensures Earned(events, i, h)
  {
    hide Run, Exchangeable;
    assert events[..|events| - 1][..i] == events[..i];
  }

  lemma AnsweredOk(s: State, e: Event)
    requires Consistent(s)
    ensures Step(s, e).exchanged != s.exchanged ==>
      e.Refresh? && Step(s, e).exchanged == s.exchanged + [e.tokenHash] && e.isActive && !e.mustChangePassword
      && exists k: nat :: Exchangeable(s.rows, k, e.tokenHash, e.now)
  {
    hide FindUnique;
    if e.Refresh? && Verdict(s, e).Ok? {
      assert Exchangeable(s.rows, Verdict(s, e).value, e.tokenHash, e.now);
    }
  }

  /** The user holds no token that is not revoked. */
  ghost predicate LockedOut(s: State, userId: string) {
    forall i :: 0 <= i < |s.rows| && s.rows[i].userId == userId ==> s.rows[i].revokedAt.Some?
  }

  /** A replay is detected exactly on a used token that is neither revoked nor expired, and locks its user out. */
  lemma ReplayLocksOut(s: State, e: Event)
    requires e.Refresh? && Consistent(s)
    ensures Verdict(s, e) == Err(ReplayDetected) <==>
      exists k :: FindUnique(s.rows, e.tokenHash) == Some(k) && s.rows[k].usedAt.Some? && s.rows[k].revokedAt.None? && s.rows[k].expiresAt > e.now
    ensures Verdict(s, e) == Err(ReplayDetected) ==>
      LockedOut(Step(s, e), s.rows[FindUnique(s.rows, e.tokenHash).value].userId)
  {
    hide FindUnique;
    if Verdict(s, e) == Err(ReplayDetected) {
      var k := FindUnique(s.rows, e.tokenHash).value;
      assert FindUnique(s.rows, e.tokenHash) == Some(k);
    }
  }

  lemma LockedOutStep(s: State, e: Event, userId: string)
    requires Consistent(s) && LockedOut(s, userId) && !(e.Login? && e.userId == userId)
    ensures LockedOut(Step(s, e), userId)
    ensures e.Refresh? && Verdict(s, e).Ok? ==> s.rows[Verdict(s, e).value].userId != userId
  {
    hide FindUnique;
  }

  /** Once locked out, a user exchanges no token whatever requests come, until the next session is issued to that user. */
  lemma {:induction false} LockedOutUntilLogin(s: State, events: seq<Event>, userId: string)
    requires Consistent(s) && LockedOut(s, userId)
    requires forall i :: 0 <= i < |events| ==> !(events[i].Login? && events[i].userId == userId)
    ensures LockedOut(Run(s, events), userId)
    ensures forall i :: 0 <= i < |events| && events[i].Refresh? && Verdict(Run(s, events[..i]), events[i]).Ok? ==>
      var mid := Run(s, events[..i]);
      mid.rows[Verdict(mid, events[i]).value].userId != userId
  {
    hide Step, Verdict, LockedOut;
    if events != [] {
      var n := |events| - 1;
      LockedOutUntilLogin(s, events[..n], userId);
      LockedOutStep(Run(s, events[..n]), events[n], userId);
      forall i | 0 <= i < |events| && events[i].Refresh? && Verdict(Run(s, events[..i]), events[i]).Ok?
        ensures VerdictRow(Run(s, events[..i]), events[i]) &&
          Run(s, events[..i]).rows[Verdict(Run(s, events[..i]), events[i]).value].userId != userId
      {
        VerdictInRange(Run(s, events[..i]), events[i]);
        if i < n { assert events[..n][..i] == events[..i] && events[..n][i] == events[i]; }
      }
    }
  }

  predicate VerdictRow(s: State, e: Event)
    requires e.Refresh?
  {
    Verdict(s, e).Ok? ==> Verdict(s, e).value < |s.rows|
  }

  lemma VerdictInRange(s: State, e: Event)
    requires e.Refresh?
    ensures VerdictRow(s, e)
  {
  }
}
