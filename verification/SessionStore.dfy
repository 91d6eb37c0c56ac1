/**
  Session and refresh-token rows, and the atomic repository over them.

  `CreateIn`, `RotateIn` and `RevokeIn` are the one-step meaning of the repository
  port; `InMemorySessionRepository` is the class that performs them in place.
  The locking implementation is in RotationProtocol and is proved to refine
  these functions.
 */
module SessionStore {
  import opened Prelude

  /** A Snowflake; on the wire it is the decimal text of this number. */
  type Id = nat

  /** The stored SHA-256 of a refresh token. Hashing is taken to be injective, so presenting a token is presenting its digest. */
  type Digest = nat

  datatype Session = Session(
    id: Id,
    userId: Id,
    expiresAt: int,
    revokedAt: Option<int>,
    userAgent: Option<string>,
    createdAt: int)

  datatype TokenRow = TokenRow(
    id: Id,
    sessionId: Id,
    tokenHash: Digest,
    spentAt: Option<int>,
    createdAt: int)

  datatype SessionWithToken = SessionWithToken(session: Session, token: TokenRow)

  datatype Tables = Tables(sessions: map<Id, Session>, tokens: map<Id, TokenRow>)

  const NO_ROWS := Tables(map[], map[])

  function CreateIn(db: Tables, session: Session, first: TokenRow): Tables {
    Tables(db.sessions[session.id := session], db.tokens[first.id := first])
  }

  /** The conditional spend: refused unless the token is unspent and its session is live. */
  function RotateIn(db: Tables, spentId: Id, next: TokenRow, spentAt: int): (Tables, bool) {
    if spentId !in db.tokens then (db, false)
    else
      var current := db.tokens[spentId];
      if current.spentAt.Some? || current.sessionId !in db.sessions || db.sessions[current.sessionId].revokedAt.Some? then
        (db, false)
      else
        (db.(tokens := db.tokens[spentId := current.(spentAt := Some(spentAt))][next.id := next]), true)
  }

  /** Keeps the first revocation time. */
  function RevokeIn(db: Tables, sessionId: Id, revokedAt: int): Tables {
    if sessionId in db.sessions && db.sessions[sessionId].revokedAt.None? then
      db.(sessions := db.sessions[sessionId := db.sessions[sessionId].(revokedAt := Some(revokedAt))])
    else
      db
  }

  ghost predicate Stored(db: Tables, tokenHash: Digest) {
    exists id :: id in db.tokens && db.tokens[id].tokenHash == tokenHash
  }

  /** Row ids match their keys, every token's session exists, and `token_hash` is unique. */
  ghost predicate WellFormed(db: Tables) {
    && (forall s :: s in db.sessions ==> db.sessions[s].id == s)
    && (forall t :: t in db.tokens ==> db.tokens[t].id == t && db.tokens[t].sessionId in db.sessions)
    && (forall t, u :: t in db.tokens && u in db.tokens && db.tokens[t].tokenHash == db.tokens[u].tokenHash ==> t == u)
  }

  /** The token row with this hash, joined to its session. */
  ghost function FindIn(db: Tables, tokenHash: Digest): (found: Option<SessionWithToken>)
    ensures WellFormed(db) ==> (found.Some? <==> Stored(db, tokenHash))
    ensures WellFormed(db) && found.Some? ==>
              && found.value.token.tokenHash == tokenHash
              && found.value.token.id in db.tokens && db.tokens[found.value.token.id] == found.value.token
              && found.value.session.id in db.sessions && db.sessions[found.value.session.id] == found.value.session
              && found.value.token.sessionId == found.value.session.id
  {
    if Stored(db, tokenHash) then
      var id :| id in db.tokens && db.tokens[id].tokenHash == tokenHash;
      var token := db.tokens[id];
      if token.sessionId in db.sessions then Some(SessionWithToken(db.sessions[token.sessionId], token)) else None
    else
      None
  }

  /** The in-memory repository: rows are values, so what a caller has read does not change under it. */
  class InMemorySessionRepository {
    var sessions: map<Id, Session>
    var tokens: map<Id, TokenRow>

    constructor ()
      ensures Contents() == NO_ROWS
    {
      sessions, tokens := map[], map[];
    }

    function Contents(): Tables
      reads this
    {
      Tables(sessions, tokens)
    }

    method Create(session: Session, firstToken: TokenRow)
      modifies this
      ensures Contents() == CreateIn(old(Contents()), session, firstToken)
    {
      sessions := sessions[session.id := session];
      tokens := tokens[firstToken.id := firstToken];
    }

    method FindByTokenHash(tokenHash: Digest) returns (found: Option<SessionWithToken>)
      ensures found.Some? ==>
                && found.value.token in tokens.Values && found.value.token.tokenHash == tokenHash
                && found.value.token.sessionId in sessions && found.value.session == sessions[found.value.token.sessionId]
      ensures !Stored(Contents(), tokenHash) ==> found.None?
      ensures WellFormed(Contents()) ==> found == FindIn(Contents(), tokenHash)
    {
      found := None;
      if id :| id in tokens && tokens[id].tokenHash == tokenHash {
        var token := tokens[id];
        if token.sessionId in sessions {
          found := Some(SessionWithToken(sessions[token.sessionId], token));
        }
      }
    }

    method Rotate(spentTokenId: Id, next: TokenRow, spentAt: int) returns (rotated: bool)
      modifies this
      ensures (Contents(), rotated) == RotateIn(old(Contents()), spentTokenId, next, spentAt)
    {
      if spentTokenId !in tokens {
        return false;
      }
      var current := tokens[spentTokenId];
      if current.spentAt.Some? || current.sessionId !in sessions || sessions[current.sessionId].revokedAt.Some? {
        return false;
      }
      tokens := tokens[spentTokenId := current.(spentAt := Some(spentAt))];
      tokens := tokens[next.id := next];
      return true;
    }

    method Revoke(sessionId: Id, revokedAt: int)
      modifies this
      ensures Contents() == RevokeIn(old(Contents()), sessionId, revokedAt)
    {
      if sessionId in sessions && sessions[sessionId].revokedAt.None? {
        sessions := sessions[sessionId := sessions[sessionId].(revokedAt := Some(revokedAt))];
      }
    }
  }
}
