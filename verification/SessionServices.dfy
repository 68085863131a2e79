/** `AuthService` over `RefreshSessionRepository`, rows changed in place, proved against `Sessions`. */
module SessionServices {
  import opened Prelude
  import opened Sessions

  ghost predicate Did<T>(spec: Result<Store, Error>, before: Store, after: Store, answer: Result<T, Error>) {
    match spec
    case Ok(t) => answer.Ok? && after == t
    case Err(e) => answer == Err(e) && after == before
  }

  class RefreshSessionRepository {
    var users: map<Id, User>
    var sessions: map<Id, Session>
    var sessionOf: map<Digest, Id>
    ghost var chains: map<Id, seq<Token>>
    ghost var slots: map<Token, (Id, nat)>

    ghost function Rows(): Store
      reads this
    {
      Store(users, sessions, sessionOf, chains, slots)
    }

    constructor ()
      ensures Rows() == EMPTY
    {
      users, sessions, sessionOf, chains, slots := map[], map[], map[], map[], map[];
    }

    method Create(newId: Id, token: Token, expiresAt: nat) returns (answer: Result<(), Error>)
      modifies this
      ensures Did(Insert(old(Rows()), newId, token, expiresAt), old(Rows()), Rows(), answer)
    {
      if newId in sessions || Sha256(token) in sessionOf {
        return Err(UniqueViolation);
      }
      sessions := sessions[newId := Session(token.user, Sha256(token), expiresAt, None)];
      sessionOf := sessionOf[Sha256(token) := newId];
      chains := chains[newId := [token]];
      slots := slots[token := (newId, 0)];
      return Ok(());
    }

    /** `findActiveByTokenHash` on the rows as the read found them. */
    static method FindActiveByTokenHash(seen: Store, tokenHash: Digest, now: nat) returns (row: Option<(Id, Session)>)
      ensures row.Some? ==> FindActive(seen, tokenHash, now) == Ok(row.value.0) && row.value.0 in seen.sessions
                            && seen.sessions[row.value.0] == row.value.1
      ensures row.None? ==> FindActive(seen, tokenHash, now) == Err(InvalidToken)
    {
      if tokenHash in seen.sessionOf && seen.sessionOf[tokenHash] in seen.sessions {
        var i := seen.sessionOf[tokenHash];
        var session := seen.sessions[i];
        if session.revokedAt == None && session.expiresAt > now {
          return Some((i, session));
        }
      }
      return None;
    }

    method RevokeByTokenHash(tokenHash: Digest, user: Id, now: nat)
      modifies this`sessions
      ensures Rows() == RevokeWhere(old(Rows()), user, Some(tokenHash), now)
    {
      sessions := map i | i in sessions ::
        if Revokes(sessions[i], user, Some(tokenHash)) then sessions[i].(revokedAt := Some(now)) else sessions[i];
    }

    method RevokeAllForUser(user: Id, now: nat)
      modifies this`sessions
      ensures Rows() == RevokeWhere(old(Rows()), user, None, now)
    {
      sessions := map i | i in sessions ::
        if Revokes(sessions[i], user, None) then sessions[i].(revokedAt := Some(now)) else sessions[i];
    }

    /** `updateMany` whose count decides: false is a lost race. */
    method Rotate(i: Id, expectedHash: Digest, token: Token, expiresAt: nat) returns (answer: Result<bool, Error>)
      modifies this
      ensures var spec := Sessions.Rotate(old(Rows()), i, expectedHash, token, expiresAt);
              && (spec.Ok? ==> answer == Ok(true) && Rows() == spec.value)
              && (spec.Err? ==> Rows() == old(Rows()))
              && (spec == Err(InvalidToken) ==> answer == Ok(false))
              && (spec == Err(UniqueViolation) ==> answer == Err(UniqueViolation))
    {
      if i !in sessions || sessions[i].tokenHash != expectedHash || sessions[i].revokedAt != None {
        return Ok(false);
      }
      if Sha256(token) in sessionOf {
        return Err(UniqueViolation);
      }
      sessions := sessions[i := sessions[i].(tokenHash := Sha256(token), expiresAt := expiresAt)];
      sessionOf := (sessionOf - {expectedHash})[Sha256(token) := i];
      slots := slots[token := (i, |Rows().Chain(i)|)];
      chains := chains[i := Rows().Chain(i) + [token]];
      return Ok(true);
    }
  }

  class AuthService {
    const repo: RefreshSessionRepository

    constructor (repo: RefreshSessionRepository)
      ensures this.repo == repo
    {
      this.repo := repo;
    }

    method Register(user: Id, password: nat, newId: Id, token: Token) returns (answer: Result<Token, Error>)
      modifies repo
      ensures Did(Sessions.Register(old(repo.Rows()), user, password, newId, token), old(repo.Rows()), repo.Rows(), answer)
      ensures answer.Ok? ==> answer.value == token
    {
      if user in repo.users {
        return Err(UniqueViolation);
      }
      ghost var before := repo.Rows();
      repo.users := repo.users[user := User(Some(password), false, false)];
      var created := CreateSession(newId, token);
      if created.Err? {
        repo.users := repo.users - {user};
        assert repo.users == before.users;
        return Err(created.error);
      }
      return Ok(token);
    }

    method Login(seen: Store, user: Id, password: nat, newId: Id, token: Token) returns (answer: Result<Token, Error>)
      modifies repo
      ensures Did(Sessions.Login(seen, old(repo.Rows()), user, password, newId, token),
                  old(repo.Rows()), repo.Rows(), answer)
      ensures answer.Ok? ==> answer.value == token
    {
      if user !in seen.users {
        return Err(InvalidCredentials);
      }
      var row := seen.users[user];
      if row.password == None {
        return Err(InvalidCredentials);
      }
      if row.password.value != password {
        return Err(InvalidCredentials);
      }
      if !row.emailVerified {
        return Err(EmailNotVerified);
      }
      if !row.active {
        return Err(AccountSuspended);
      }
      var _ :- CreateSession(newId, token);
      return Ok(token);
    }

    method CreateSession(newId: Id, token: Token) returns (answer: Result<(), Error>)
      modifies repo
      ensures Did(Sessions.CreateSession(old(repo.Rows()), newId, token), old(repo.Rows()), repo.Rows(), answer)
    {
      var expiresAt :- DecodeExpiry(token);
      answer := repo.Create(newId, token, expiresAt);
    }

    method Logout(user: Id, device: Option<Token>, now: nat)
      modifies repo
      ensures repo.Rows() == Sessions.Logout(old(repo.Rows()), user, device, now)
    {
      if device.Some? {
        repo.RevokeByTokenHash(Sha256(device.value), user, now);
      } else {
        repo.RevokeAllForUser(user, now);
      }
    }

    method RefreshTokens(seenUser: Store, seenSession: Store, user: Id, token: Token, newToken: Token, now: nat)
      returns (answer: Result<Token, Error>)
      modifies repo
      ensures Did(Refresh(seenUser, seenSession, old(repo.Rows()), user, token, newToken, now),
                  old(repo.Rows()), repo.Rows(), answer)
      ensures answer.Ok? ==> answer.value == newToken
    {
      if user !in seenUser.users {
        return Err(InvalidToken);
      }
      if !seenUser.users[user].active {
        return Err(AccountSuspended);
      }
      var session := RefreshSessionRepository.FindActiveByTokenHash(seenSession, Sha256(token), now);
      if session.None? || session.value.1.user != user {
        return Err(InvalidToken);
      }
      var expiresAt :- DecodeExpiry(newToken);
      var rotated :- repo.Rotate(session.value.0, Sha256(token), newToken, expiresAt);
      if !rotated {
        return Err(InvalidToken);
      }
      return Ok(newToken);
    }
  }
}
