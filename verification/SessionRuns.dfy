/** Every run of logins, refreshes and logouts, with reads of any staleness. */
module SessionRuns {
  import opened Prelude
  import opened Histories
  import opened Sessions

  /** `jti` is the nonce of the refresh token the call signs, if it gets that far. */
  datatype Call =
    | SignUp(user: Id, password: nat, newId: Id, jti: nat, exp: Option<nat>)
    | SignIn(user: Id, password: nat, newId: Id, jti: nat, exp: Option<nat>, userAge: nat)
    | SignOut(user: Id, device: Option<Token>, now: nat)
    | Exchange(user: Id, token: Token, jti: nat, exp: Option<nat>, now: nat, userAge: nat, sessionAge: nat)
    | SetUser(user: Id, row: User)

  type History = h: seq<Store> | h != [] witness [EMPTY]

  function Outcome(h: History, call: Call): Result<Store, Error> {
    var s := Now(h);
    match call
    case SignUp(u, pw, newId, jti, exp) => Register(s, u, pw, newId, Token(u, jti, exp))
    case SignIn(u, pw, newId, jti, exp, ua) => Login(View(h, ua), s, u, pw, newId, Token(u, jti, exp))
    case SignOut(u, device, now) => Ok(Logout(s, u, device, now))
    case Exchange(u, token, jti, exp, now, ua, sa) =>
      Refresh(View(h, ua), View(h, sa), s, u, token, Token(u, jti, exp), now)
    case SetUser(u, row) => Ok(s.(users := s.users[u := row]))
  }

  function Next(h: History, call: Call): Store {
    match Outcome(h, call)
    case Ok(s) => s
    case Err(_) => Now(h)
  }

  function Run(calls: seq<Call>): (h: History)
    ensures |h| == |calls| + 1
  {
    if calls == [] then [EMPTY]
    else
      var h := Run(calls[..|calls| - 1]);
      h + [Next(h, calls[|calls| - 1])]
  }

  predicate Signs(call: Call) {
    call.SignUp? || call.SignIn? || call.Exchange?
  }

  /** No two calls of the run draw the same nonce. */
  ghost predicate FreshTokens(calls: seq<Call>) {
    forall i, j :: 0 <= i < j < |calls| && Signs(calls[i]) && Signs(calls[j]) ==> calls[i].jti != calls[j].jti
  }

  // ------------------------------------------------------------- what a run keeps

  function Last(chain: seq<Token>): Token
    requires chain != []
  {
    chain[|chain| - 1]
  }

  ghost predicate Indexed(s: Store) {
    && (forall h :: h in s.sessionOf ==> s.sessionOf[h] in s.sessions && s.sessions[s.sessionOf[h]].tokenHash == h)
    && (forall i :: i in s.sessions ==>
          s.sessions[i].tokenHash in s.sessionOf && s.sessionOf[s.sessions[i].tokenHash] == i)
  }

  /** A row holds the hash and the expiry of its chain's last token; the chain belongs to the row's user. */
  ghost predicate RowHolds(row: Session, chain: seq<Token>) {
    && chain != []
    && row.tokenHash == Sha256(Last(chain))
    && DecodeExpiry(Last(chain)) == Ok(row.expiresAt)
    && forall k :: 0 <= k < |chain| ==> chain[k].user == row.user
  }

  ghost predicate HoldsLast(s: Store) {
    && s.chains.Keys == s.sessions.Keys
    && forall i :: i in s.sessions ==> RowHolds(s.sessions[i], s.chains[i])
  }

  /** Every token has one place: it is on one chain, once. */
  ghost predicate Placed(s: Store) {
    forall i, k :: i in s.chains && 0 <= k < |s.chains[i]| ==>
      s.chains[i][k] in s.slots && s.slots[s.chains[i][k]] == (i, k)
  }

  predicate Drew(call: Call, jti: nat) {
    Signs(call) && call.jti == jti
  }

  ghost predicate Minted(s: Store, calls: seq<Call>) {
    forall token :: token in s.slots ==> exists n :: 0 <= n < |calls| && Drew(calls[n], token.jti)
  }

  ghost predicate Sound(s: Store) {
    Indexed(s) && HoldsLast(s) && Placed(s)
  }

  /** The chain only grows, and a revoked row and its chain never change again. */
  predicate RowEvolves(row: Session, chain: seq<Token>, row': Session, chain': seq<Token>) {
    && row'.user == row.user
    && chain <= chain'
    && (row.revokedAt.Some? ==> row' == row && chain' == chain)
  }

  ghost predicate Evolves(s: Store, t: Store) {
    forall i :: i in s.sessions ==>
      && i in t.sessions
      && RowEvolves(s.sessions[i], s.Chain(i), t.sessions[i], t.Chain(i))
  }

  ghost predicate SoundHistory(h: History) {
    forall s :: s in h ==> Sound(s) && Evolves(s, Now(h))
  }

  // ------------------------------------------------------------------- one write

  /** One row takes a new last token. */
  ghost predicate Appends(s: Store, t: Store, i: Id, token: Token) {
    && i in t.sessions && t.chains == s.chains[i := s.Chain(i) + [token]]
    && t.sessions == s.sessions[i := t.sessions[i]]
    && t.slots == s.slots[token := (i, |s.Chain(i)|)]
    && t.sessions[i].tokenHash == Sha256(token)
    && DecodeExpiry(token) == Ok(t.sessions[i].expiresAt)
    && t.sessions[i].user == token.user
    && t.sessions[i].revokedAt == None
    && (i in s.sessions ==> s.sessions[i].user == token.user && s.sessions[i].revokedAt == None)
  }

  lemma AppendHoldsLast(s: Store, t: Store, i: Id, token: Token)
    requires HoldsLast(s) && Appends(s, t, i, token)
    ensures HoldsLast(t)
  {
    assert Last(t.chains[i]) == token;
    assert i in s.sessions ==> RowHolds(s.sessions[i], s.chains[i]);
    assert RowHolds(t.sessions[i], t.chains[i]);
  }

  lemma AppendEvolves(s: Store, t: Store, i: Id, token: Token)
    requires HoldsLast(s) && Appends(s, t, i, token)
    ensures Evolves(s, t)
  {
  }

  lemma AppendPlaced(s: Store, t: Store, i: Id, token: Token)
    requires Placed(s) && Appends(s, t, i, token) && token !in s.slots
    ensures Placed(t)
  {
  }

  lemma AppendKeeps(s: Store, t: Store, i: Id, token: Token)
    requires HoldsLast(s) && Placed(s) && Indexed(t) && Appends(s, t, i, token) && token !in s.slots
    ensures Sound(t) && Evolves(s, t)
  {
    AppendHoldsLast(s, t, i, token);
    AppendEvolves(s, t, i, token);
    AppendPlaced(s, t, i, token);
  }

  lemma CreateKeeps(s: Store, newId: Id, token: Token)
    requires Sound(s) && token !in s.slots && CreateSession(s, newId, token).Ok?
    ensures var t := CreateSession(s, newId, token).value;
            Sound(t) && Evolves(s, t) && Appends(s, t, newId, token)
  {
    var t := CreateSession(s, newId, token).value;
    CreateIndexed(s, newId, token);
    assert [] + [token] == [token];
    AppendKeeps(s, t, newId, token);
  }

  lemma CreateIndexed(s: Store, newId: Id, token: Token)
    requires Indexed(s) && CreateSession(s, newId, token).Ok?
    ensures Indexed(CreateSession(s, newId, token).value)
  {
  }

  lemma RotateKeeps(s: Store, i: Id, token: Token, newToken: Token, expiresAt: nat)
    requires Sound(s) && newToken !in s.slots && DecodeExpiry(newToken) == Ok(expiresAt)
    requires Rotate(s, i, Sha256(token), newToken, expiresAt).Ok? && newToken.user == s.sessions[i].user
    ensures var t := Rotate(s, i, Sha256(token), newToken, expiresAt).value;
            Sound(t) && Evolves(s, t) && Appends(s, t, i, newToken) && Last(s.chains[i]) == token
  {
    var t := Rotate(s, i, Sha256(token), newToken, expiresAt).value;
    RotateIndexed(s, i, Sha256(token), Sha256(newToken), t);
    AppendKeeps(s, t, i, newToken);
  }

  lemma RotateIndexed(s: Store, i: Id, before: Digest, after: Digest, t: Store)
    requires Indexed(s) && i in s.sessions && s.sessions[i].tokenHash == before && after !in s.sessionOf
    requires i in t.sessions && t.sessions == s.sessions[i := t.sessions[i]] && t.sessions[i].tokenHash == after
    requires t.sessionOf == (s.sessionOf - {before})[after := i]
    ensures Indexed(t)
  {
  }

  lemma LogoutKeeps(s: Store, user: Id, device: Option<Token>, now: nat)
    requires Sound(s)
    ensures Sound(Logout(s, user, device, now)) && Evolves(s, Logout(s, user, device, now))
  {
    LogoutIndexed(s, user, device, now);
    LogoutHoldsLast(s, user, device, now);
    LogoutEvolves(s, user, device, now);
  }

  lemma LogoutIndexed(s: Store, user: Id, device: Option<Token>, now: nat)
    requires Indexed(s)
    ensures Indexed(Logout(s, user, device, now))
  {
  }

  lemma LogoutHoldsLast(s: Store, user: Id, device: Option<Token>, now: nat)
    requires HoldsLast(s)
    ensures HoldsLast(Logout(s, user, device, now))
  {
  }

  lemma LogoutEvolves(s: Store, user: Id, device: Option<Token>, now: nat)
    ensures Evolves(s, Logout(s, user, device, now))
  {
  }

  lemma SetUserKeeps(s: Store, users: map<Id, User>)
    requires Sound(s)
    ensures Sound(s.(users := users)) && Evolves(s, s.(users := users))
  {
    var t := s.(users := users);
    assert Indexed(t) && HoldsLast(t) && Placed(t);
  }

  function NewToken(call: Call): Token
    requires Signs(call)
  {
    Token(call.user, call.jti, call.exp)
  }

  lemma StepKeeps(h: History, call: Call)
    requires SoundHistory(h) && (Signs(call) ==> NewToken(call) !in Now(h).slots)
    ensures Sound(Next(h, call)) && Evolves(Now(h), Next(h, call))
  {
    var s := Now(h);
    SetUserKeeps(s, s.users);
    if Outcome(h, call).Ok? {
      match call
      case SignUp(u, pw, newId, jti, exp) =>
        CreateKeeps(s.(users := s.users[u := User(Some(pw), false, false)]), newId, Token(u, jti, exp));
      case SignIn(u, _, newId, jti, exp, _) => CreateKeeps(s, newId, Token(u, jti, exp));
      case SignOut(u, device, now) => LogoutKeeps(s, u, device, now);
      case Exchange(_, _, _, _, _, _, _) => var _ := ExchangeKeeps(h, call);
      case SetUser(u, row) => SetUserKeeps(s, s.users[u := row]);
    }
  }

  /** A successful refresh extends one live chain, whose last token was the one presented. */
  lemma ExchangeKeeps(h: History, call: Call) returns (i: Id)
    requires SoundHistory(h) && call.Exchange? && Outcome(h, call).Ok?
    requires NewToken(call) !in Now(h).slots
    ensures Sound(Next(h, call)) && Evolves(Now(h), Next(h, call))
    ensures i in Now(h).sessions && Now(h).sessions[i].revokedAt == None
    ensures i in Now(h).chains && Now(h).chains[i] != [] && Last(Now(h).chains[i]) == call.token
    ensures Appends(Now(h), Next(h, call), i, NewToken(call))
  {
    i := RefreshKeeps(View(h, call.userAge), View(h, call.sessionAge), Now(h), call.user, call.token, NewToken(call), call.now);
  }

  lemma RefreshRotates(seenUser: Store, seenSession: Store, s: Store, user: Id, token: Token, newToken: Token, now: nat)
    returns (i: Id)
    requires Refresh(seenUser, seenSession, s, user, token, newToken, now).Ok?
    ensures i in seenSession.sessions && seenSession.sessions[i].user == user
    ensures newToken.exp.Some? && DecodeExpiry(newToken) == Ok(newToken.exp.value * 1000)
    ensures Refresh(seenUser, seenSession, s, user, token, newToken, now)
         == Rotate(s, i, Sha256(token), newToken, newToken.exp.value * 1000)
  {
    i := seenSession.sessionOf[Sha256(token)];
  }

  lemma RefreshKeeps(seenUser: Store, seenSession: Store, s: Store, user: Id, token: Token, newToken: Token, now: nat)
    returns (i: Id)
    requires Sound(s) && Evolves(seenSession, s) && newToken !in s.slots && newToken.user == user
    requires Refresh(seenUser, seenSession, s, user, token, newToken, now).Ok?
    ensures var t := Refresh(seenUser, seenSession, s, user, token, newToken, now).value;
            Sound(t) && Evolves(s, t) && Appends(s, t, i, newToken)
    ensures i in s.sessions && s.sessions[i].revokedAt == None
    ensures i in s.chains && s.chains[i] != [] && Last(s.chains[i]) == token
  {
    i := RefreshRotates(seenUser, seenSession, s, user, token, newToken, now);
    SameOwner(seenSession, s, i);
    RotateKeeps(s, i, token, newToken, newToken.exp.value * 1000);
  }

  lemma SameOwner(s: Store, t: Store, i: Id)
    requires Evolves(s, t) && i in s.sessions
    ensures i in t.sessions && t.sessions[i].user == s.sessions[i].user
  {
  }

  // --------------------------------------------------------------------- runs

  lemma {:induction false} RunIsSound(calls: seq<Call>)
    requires FreshTokens(calls)
    ensures SoundHistory(Run(calls)) && Minted(Now(Run(calls)), calls)
  {
    if calls != [] {
      var n := |calls| - 1;
      var h, call := Run(calls[..n]), calls[n];
      assert FreshTokens(calls[..n]);
      RunIsSound(calls[..n]);
      NonceUnused(Now(h), calls);
      StepKeeps(h, call);
      StepMints(h, calls);
      SoundExtends(h, Next(h, call));
    }
  }

  lemma NonceUnused(s: Store, calls: seq<Call>)
    requires calls != [] && FreshTokens(calls) && Minted(s, calls[..|calls| - 1])
    ensures var call := calls[|calls| - 1]; Signs(call) ==> NewToken(call) !in s.slots
  {
  }

  lemma StepMints(h: History, calls: seq<Call>)
    requires calls != [] && Minted(Now(h), calls[..|calls| - 1])
    ensures Minted(Next(h, calls[|calls| - 1]), calls)
  {
    var n := |calls| - 1;
    var t := Next(h, calls[n]);
    forall token | token in t.slots ensures exists m :: 0 <= m < |calls| && Drew(calls[m], token.jti) {
      if token in Now(h).slots {
        var m :| 0 <= m < n && Drew(calls[..n][m], token.jti);
        assert Drew(calls[m], token.jti);
      } else {
        assert Drew(calls[n], token.jti);
      }
    }
  }

  lemma SoundExtends(h: History, t: Store)
    requires SoundHistory(h) && Sound(t) && Evolves(Now(h), t)
    ensures SoundHistory(h + [t])
  {
    forall s | s in h + [t] ensures Sound(s) && Evolves(s, t) {
      if s in h {
        EvolvesTransitive(s, Now(h), t);
      }
    }
  }

  lemma EvolvesTransitive(s: Store, t: Store, u: Store)
    requires Sound(s) && Sound(t) && Evolves(s, t) && Evolves(t, u)
    ensures Evolves(s, u)
  {
  }
}
