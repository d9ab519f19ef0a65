/**
 * The refresh-session store, src/modules/session/session.service.ts. A
 * refresh token reads "<session id>.<secret>"; the row keeps only the bcrypt
 * digest of the secret. Revocation clears `isActive`; rotation and the
 * expiry path of validation delete the row.
 */
module Session {
  import opened Wrappers
  import opened Strings
  import opened Crypto

  const DayMs: int := 24 * 60 * 60000
  const DefaultTtlDays: int := 30

  /** A row of `user_sessions`. */
  datatype UserSession = UserSession(
    id: string,
    userId: string,
    deviceId: Option<string>,
    tokenHash: string,
    ip: Option<string>,
    isActive: bool,
    expiresAt: int)

  /** What `createSession` returns. */
  datatype NewSession = NewSession(refreshToken: string, expiresAt: int, sessionId: string)

  /** The plain refresh token handed to the client. */
  function RefreshToken(id: string, secret: string): string
  {
    id + "." + secret
  }

  /** `opts.ttlDays ?? 30`. */
  function TtlDays(ttlDays: Option<int>): int
  {
    if ttlDays.Some? then ttlDays.value else DefaultTtlDays
  }

  /** How `validateRefreshToken` classifies a presented token, in source order. */
  datatype TokenCheck = Malformed | Missing | Inactive | Expired | SecretMismatch | Live(session: UserSession)

  function CheckToken(sessions: map<string, UserSession>, plain: string, now: int): (c: TokenCheck)
    ensures c.Malformed? <==> |Split(plain, '.')| != 2
    ensures c.Live? <==>
      var parts := Split(plain, '.');
      |parts| == 2 && parts[0] in sessions && sessions[parts[0]].isActive
      && now <= sessions[parts[0]].expiresAt && Compare(parts[1], sessions[parts[0]].tokenHash)
    ensures c.Live? ==> c.session == sessions[Split(plain, '.')[0]]
  {
    var parts := Split(plain, '.');
    if |parts| != 2 then Malformed
    else if parts[0] !in sessions then Missing
    else
      var s := sessions[parts[0]];
      if !s.isActive then Inactive
      else if s.expiresAt < now then Expired
      else if !Compare(parts[1], s.tokenHash) then SecretMismatch
      else Live(s)
  }

  /** A token built from a UUID and a dot-free secret splits back into exactly those two parts. */
  lemma TokenParts(id: string, secret: string)
    requires IsUuid(id) && '.' !in secret
    ensures Split(RefreshToken(id, secret), '.') == [id, secret]
  {
    UuidHasNoDot(id);
    SplitPair(id, secret, '.');
  }

  /**
   * The token of an active row whose digest is that of the secret validates
   * to that row up to and including its expiry instant, and is reported
   * expired one instant later.
   */
  lemma LiveToken(sessions: map<string, UserSession>, id: string, secret: string, now: int)
    requires IsUuid(id) && '.' !in secret
    requires id in sessions && sessions[id].isActive && sessions[id].tokenHash == Hash(secret)
    ensures now <= sessions[id].expiresAt ==> CheckToken(sessions, RefreshToken(id, secret), now) == Live(sessions[id])
    ensures now > sessions[id].expiresAt ==> CheckToken(sessions, RefreshToken(id, secret), now) == Expired
  {
    TokenParts(id, secret);
    CompareHash(secret, secret);
  }

  /** A secret that differs from the issued one within what bcrypt reads is a mismatch. */
  lemma OtherSecretRejected(sessions: map<string, UserSession>, id: string, secret: string, other: string, now: int)
    requires IsUuid(id) && '.' !in other && Significant(other) != Significant(secret)
    requires id in sessions && sessions[id].isActive && now <= sessions[id].expiresAt
    requires sessions[id].tokenHash == Hash(secret)
    ensures CheckToken(sessions, RefreshToken(id, other), now) == SecretMismatch
  {
    TokenParts(id, other);
    CompareHash(secret, other);
  }

  /**
   * The issued secret has 128 hex characters but bcrypt reads only the first
   * 72: a token that keeps those and changes the rest still validates.
   */
  lemma SecretTailIgnored(sessions: map<string, UserSession>, id: string, secret: string, other: string, now: int)
    requires IsUuid(id) && '.' !in other
    requires |secret| >= BcryptMaxLength && |other| >= BcryptMaxLength
    requires other[..BcryptMaxLength] == secret[..BcryptMaxLength]
    requires id in sessions && sessions[id].isActive && now <= sessions[id].expiresAt
    requires sessions[id].tokenHash == Hash(secret)
    ensures CheckToken(sessions, RefreshToken(id, other), now) == Live(sessions[id])
  {
    TokenParts(id, other);
    LateDifferenceAccepted(secret, other);
  }

  /** `update({ id }, { isActive: false })`. */
  function Deactivate(sessions: map<string, UserSession>, id: string): map<string, UserSession>
  {
    if id in sessions then sessions[id := sessions[id].(isActive := false)] else sessions
  }

  /** A revoked session keeps its row but never validates again, whatever the secret or the time. */
  lemma RevokedStaysInactive(sessions: map<string, UserSession>, id: string, secret: string, now: int)
    requires IsUuid(id) && '.' !in secret && id in sessions
    ensures id in Deactivate(sessions, id)
    ensures CheckToken(Deactivate(sessions, id), RefreshToken(id, secret), now) == Inactive
  {
    TokenParts(id, secret);
  }

  /** After the row is deleted, its token is reported missing. */
  lemma DeletedTokenMissing(sessions: map<string, UserSession>, id: string, secret: string, now: int)
    requires IsUuid(id) && '.' !in secret
    ensures CheckToken(sessions - {id}, RefreshToken(id, secret), now) == Missing
  {
    TokenParts(id, secret);
  }

  /** The ids of the rows that `revokeAllByUserId` deactivates. */
  function DeactivateUser(sessions: map<string, UserSession>, userId: string): (r: map<string, UserSession>)
    ensures r.Keys == sessions.Keys
    ensures forall k :: k in sessions ==>
      r[k] == if sessions[k].userId == userId then sessions[k].(isActive := false) else sessions[k]
  {
    map k | k in sessions :: if sessions[k].userId == userId then sessions[k].(isActive := false) else sessions[k]
  }

  class SessionService {
    var sessions: map<string, UserSession>

    ghost predicate Valid()
      reads this
    {
      forall k :: k in sessions ==> sessions[k].id == k
    }

    constructor()
      ensures sessions == map[] && Valid()
    {
      sessions := map[];
    }

    /**
     * `createSession`: `random` is the output of `randomBytes(64)` and `newId`
     * the UUID the database assigns.
     */
    method CreateSession(userId: string, deviceInfo: Option<string>, ip: Option<string>, ttlDays: Option<int>,
                         now: int, random: seq<bv8>, newId: string)
      returns (created: NewSession)
      requires Valid() && |random| == 64 && IsUuid(newId) && newId !in sessions
      modifies this
      ensures Valid()
      ensures var secret := HexEncode(random);
        var expiresAt := now + TtlDays(ttlDays) * DayMs;
        sessions == old(sessions)[newId := UserSession(newId, userId, deviceInfo, Hash(secret), ip, true, expiresAt)]
        && created == NewSession(RefreshToken(newId, secret), expiresAt, newId)
    {
      var secret := HexEncode(random);
      var expiresAt := now + TtlDays(ttlDays) * DayMs;
      sessions := sessions[newId := UserSession(newId, userId, deviceInfo, Hash(secret), ip, true, expiresAt)];
      created := NewSession(RefreshToken(newId, secret), expiresAt, newId);
    }

    /**
     * `validateRefreshToken`: a malformed token throws; an unknown, inactive,
     * expired or mismatching token gives null, and only the expired case
     * deletes the row.
     */
    method ValidateRefreshToken(plain: string, now: int) returns (r: Result<Option<UserSession>>)
      requires Valid()
      modifies this
      ensures Valid()
      ensures var c := CheckToken(old(sessions), plain, now);
        && (c.Malformed? ==> r == Fail(BadRequest, "Malformed token"))
        && (c.Live? ==> r == Ok(Some(c.session)))
        && (!c.Malformed? && !c.Live? ==> r == Ok(None))
        && sessions == if c.Expired? then old(sessions) - {Split(plain, '.')[0]} else old(sessions)
    {
      var c := CheckToken(sessions, plain, now);
      var parts := Split(plain, '.');
      match c {
        case Malformed =>
          r := Fail(BadRequest, "Malformed token");
        case Expired =>
          sessions := sessions - {parts[0]};
          r := Ok(None);
        case Live(s) =>
          r := Ok(Some(s));
        case _ =>
          r := Ok(None);
      }
    }

    /** `isSessionActive`: an expired active row is switched off on the way. */
    method IsSessionActive(sessionId: string, now: int) returns (active: bool)
      requires Valid()
      modifies this
      ensures Valid()
      ensures active <==>
        sessionId in old(sessions) && old(sessions)[sessionId].isActive && now <= old(sessions)[sessionId].expiresAt
      ensures sessions ==
        if sessionId in old(sessions) && old(sessions)[sessionId].isActive && old(sessions)[sessionId].expiresAt < now
        then Deactivate(old(sessions), sessionId)
        else old(sessions)
    {
      if sessionId !in sessions {
        return false;
      }
      var s := sessions[sessionId];
      if !s.isActive {
        return false;
      }
      if s.expiresAt < now {
        sessions := Deactivate(sessions, sessionId);
        return false;
      }
      return true;
    }

    /** `revokeById`: soft revocation of one row. */
    method RevokeById(id: string)
      requires Valid()
      modifies this
      ensures Valid()
      ensures sessions == Deactivate(old(sessions), id)
    {
      sessions := Deactivate(sessions, id);
    }

    /** `revokeByRefreshToken`: deactivates the id part of a well-formed token; the secret is not checked. */
    method RevokeByRefreshToken(plain: string)
      requires Valid()
      modifies this
      ensures Valid()
      ensures var parts := Split(plain, '.');
        sessions == if |parts| == 2 then Deactivate(old(sessions), parts[0]) else old(sessions)
    {
      var parts := Split(plain, '.');
      if |parts| != 2 {
        return;
      }
      sessions := Deactivate(sessions, parts[0]);
    }

    /** `revokeAllByUserId`. */
    method RevokeAllByUserId(userId: string)
      requires Valid()
      modifies this
      ensures Valid()
      ensures sessions == DeactivateUser(old(sessions), userId)
    {
      sessions := DeactivateUser(sessions, userId);
    }

    /**
     * `rotate`: deletes the row of `sessionId` (whoever owns it) and creates a
     * new session with the default TTL.
     */
    method Rotate(sessionId: string, userId: string, deviceInfo: Option<string>, ip: Option<string>,
                  now: int, random: seq<bv8>, newId: string)
      returns (created: NewSession)
      requires Valid() && |random| == 64 && IsUuid(newId) && newId !in sessions
      modifies this
      ensures Valid()
      ensures sessionId != newId ==> sessionId !in sessions
      ensures var secret := HexEncode(random);
        var expiresAt := now + DefaultTtlDays * DayMs;
        sessions == (old(sessions) - {sessionId})[newId := UserSession(newId, userId, deviceInfo, Hash(secret), ip, true, expiresAt)]
        && created == NewSession(RefreshToken(newId, secret), expiresAt, newId)
    {
      sessions := sessions - {sessionId};
      created := CreateSession(userId, deviceInfo, ip, None, now, random, newId);
    }
  }
}
