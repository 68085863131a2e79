/**
 Refresh sessions: one row per login, rotated in place. As in `Marketplace`, a
 call is a function of the stores its reads saw and of the store its write finds.
 */
module Sessions {
  import opened Prelude

  type Id = nat

  /** A signed refresh token; `jti` is its nonce, `exp` its expiry claim in seconds. */
  datatype Token = Token(user: Id, jti: nat, exp: Option<nat>)

  /** Taking the digest apart again states that the hash is injective. */
  datatype Digest = Sha256(of: Token)

  datatype User = User(password: Option<nat>, emailVerified: bool, active: bool)

  datatype Session = Session(user: Id, tokenHash: Digest, expiresAt: nat, revokedAt: Option<nat>)

  datatype Error =
    | InvalidCredentials
    | EmailNotVerified
    | AccountSuspended
    | InvalidToken
    | UniqueViolation

  /**
   `sessionOf` is the unique index on token hashes. The last two fields are no
   tables: `chains` records, oldest first, the tokens handed out for each session
   row, and `slots` the place of each token in a chain.
   */
  datatype Store = Store(
    users: map<Id, User>,
    sessions: map<Id, Session>,
    sessionOf: map<Digest, Id>,
    chains: map<Id, seq<Token>>,
    slots: map<Token, (Id, nat)>)
  {
    function Chain(i: Id): seq<Token> {
      if i in chains then chains[i] else []
    }
  }

  const EMPTY := Store(map[], map[], map[], map[], map[])

  /** `decodeExpiry`: milliseconds; a missing or zero claim is refused. */
  function DecodeExpiry(token: Token): Result<nat, Error> {
    if token.exp.Some? && token.exp.value != 0 then Ok(token.exp.value * 1000) else Err(InvalidToken)
  }

  function CreateSession(s: Store, newId: Id, token: Token): Result<Store, Error> {
    var expiresAt :- DecodeExpiry(token);
    Insert(s, newId, token, expiresAt)
  }

  /** The repository takes whatever expiry it is given. */
  function Insert(s: Store, newId: Id, token: Token, expiresAt: nat): Result<Store, Error> {
    if newId in s.sessions || Sha256(token) in s.sessionOf then Err(UniqueViolation)
    else
      Ok(s.(sessions := s.sessions[newId := Session(token.user, Sha256(token), expiresAt, None)],
            sessionOf := s.sessionOf[Sha256(token) := newId],
            chains := s.chains[newId := [token]],
            slots := s.slots[token := (newId, 0)]))
  }

  function FindUser(seen: Store, user: Id, error: Error): Result<User, Error> {
    if user in seen.users then Ok(seen.users[user]) else Err(error)
  }

  function Login(seen: Store, s: Store, user: Id, password: nat, newId: Id, token: Token): Result<Store, Error> {
    var row :- FindUser(seen, user, InvalidCredentials);
    :- Need(row.password == Some(password), InvalidCredentials);
    :- Need(row.emailVerified, EmailNotVerified);
    :- Need(row.active, AccountSuspended);
    CreateSession(s, newId, token)
  }

  /** A new account that cannot get its session is removed again. */
  function Register(s: Store, user: Id, password: nat, newId: Id, token: Token): Result<Store, Error> {
    var row := User(Some(password), false, false);
    :- Need(user !in s.users, UniqueViolation);
    CreateSession(s.(users := s.users[user := row]), newId, token)
  }

  function RevokeWhere(s: Store, user: Id, tokenHash: Option<Digest>, now: nat): Store {
    s.(sessions := map i | i in s.sessions ::
         if Revokes(s.sessions[i], user, tokenHash) then s.sessions[i].(revokedAt := Some(now)) else s.sessions[i])
  }

  predicate Revokes(row: Session, user: Id, tokenHash: Option<Digest>) {
    row.user == user && row.revokedAt == None && (tokenHash.Some? ==> row.tokenHash == tokenHash.value)
  }

  /** With a token: that device only. Without: every device of the user. */
  function Logout(s: Store, user: Id, token: Option<Token>, now: nat): Store {
    RevokeWhere(s, user, if token.Some? then Some(Sha256(token.value)) else None, now)
  }

  function FindActive(s: Store, h: Digest, now: nat): Result<Id, Error> {
    if h in s.sessionOf && s.sessionOf[h] in s.sessions
       && s.sessions[s.sessionOf[h]].revokedAt == None && s.sessions[s.sessionOf[h]].expiresAt > now
    then Ok(s.sessionOf[h]) else Err(InvalidToken)
  }

  /** Compare-and-set on the expected hash and on not being revoked. */
  function Rotate(s: Store, i: Id, expected: Digest, token: Token, expiresAt: nat): Result<Store, Error> {
    var live := i in s.sessions && s.sessions[i].tokenHash == expected && s.sessions[i].revokedAt == None;
    :- Need(live, InvalidToken);
    :- Need(Sha256(token) !in s.sessionOf, UniqueViolation);
    Ok(s.(sessions := s.sessions[i := s.sessions[i].(tokenHash := Sha256(token), expiresAt := expiresAt)],
          sessionOf := (s.sessionOf - {expected})[Sha256(token) := i],
          chains := s.chains[i := s.Chain(i) + [token]],
          slots := s.slots[token := (i, |s.Chain(i)|)]))
  }

  function Refresh(seenUser: Store, seenSession: Store, s: Store, user: Id, token: Token, newToken: Token, now: nat)
    : Result<Store, Error>
  {
    var row :- FindUser(seenUser, user, InvalidToken);
    :- Need(row.active, AccountSuspended);
    var i :- FindActive(seenSession, Sha256(token), now);
    :- Need(seenSession.sessions[i].user == user, InvalidToken);
    var expiresAt :- DecodeExpiry(newToken);
    Rotate(s, i, Sha256(token), newToken, expiresAt)
  }
}
