/** Single use, lineage and finality of revocation, over every run with fresh tokens. */
module SessionTheorems {
  import opened Prelude
  import opened Histories
  import opened Sessions
  import opened SessionRuns

  /** The store the `k`-th call's write finds. */
  function At(calls: seq<Call>, k: nat): Store
    requires k <= |calls|
  {
    Now(Run(calls[..k]))
  }

  /** The `k`-th call traded `token` for a new one. */
  ghost predicate Traded(calls: seq<Call>, k: nat, token: Token) {
    && k < |calls|
    && calls[k].Exchange?
    && calls[k].token == token
    && Outcome(Run(calls[..k]), calls[k]).Ok?
  }

  lemma {:induction false} RunPrefix(calls: seq<Call>, k: nat)
    requires k <= |calls|
    ensures Run(calls[..k]) == Run(calls)[..k + 1]
  {
    if k < |calls| {
      RunPrefix(calls[..|calls| - 1], k);
      assert calls[..|calls| - 1][..k] == calls[..k];
    } else {
      assert calls[..k] == calls;
    }
  }

  lemma Later(calls: seq<Call>, i: nat, j: nat)
    requires FreshTokens(calls) && i <= j <= |calls|
    ensures Sound(At(calls, i)) && Sound(At(calls, j)) && Evolves(At(calls, i), At(calls, j))
  {
    assert FreshTokens(calls[..j]);
    RunIsSound(calls[..j]);
    RunPrefix(calls[..j], i);
    assert calls[..j][..i] == calls[..i];
    assert At(calls, i) == Run(calls[..j])[i];
    assert At(calls, i) in Run(calls[..j]) && At(calls, j) in Run(calls[..j]);
  }

  /** A trade finds its token last on one live chain and puts the new one behind it. */
  lemma TradeExtends(calls: seq<Call>, k: nat, token: Token) returns (i: Id)
    requires FreshTokens(calls) && Traded(calls, k, token)
    ensures var s := At(calls, k);
            && i in s.sessions && s.sessions[i].revokedAt == None
            && i in s.chains && s.chains[i] != [] && Last(s.chains[i]) == token
            && Appends(s, At(calls, k + 1), i, NewToken(calls[k]))
  {
    var init, call := calls[..k], calls[k];
    assert calls[..k + 1] == init + [call];
    FreshSoFar(calls, init, call);
    i := ExchangeExtends(init, call);
  }

  lemma ExchangeExtends(init: seq<Call>, call: Call) returns (i: Id)
    requires FreshTokens(init) && FreshTokens(init + [call]) && (init + [call])[..|init|] == init
    requires call.Exchange? && Outcome(Run(init), call).Ok?
    ensures var s := Now(Run(init));
            && i in s.sessions && s.sessions[i].revokedAt == None
            && i in s.chains && s.chains[i] != [] && Last(s.chains[i]) == call.token
            && Appends(s, Now(Run(init + [call])), i, NewToken(call))
  {
    RunIsSound(init);
    NonceUnused(Now(Run(init)), init + [call]);
    i := ExchangeKeeps(Run(init), call);
    RunExtends(init, call);
  }

  lemma FreshSoFar(calls: seq<Call>, init: seq<Call>, call: Call)
    requires FreshTokens(calls) && init + [call] <= calls
    ensures FreshTokens(init) && FreshTokens(init + [call]) && (init + [call])[..|init|] == init
  {
    assert forall i :: 0 <= i < |init| ==> (init + [call])[i] == init[i];
  }

  lemma RunExtends(init: seq<Call>, call: Call)
    ensures Run(init + [call]) == Run(init) + [Next(Run(init), call)]
  {
    assert (init + [call])[..|init|] == init;
  }

  lemma OnePlace(s: Store, i: Id, k: nat, j: Id, l: nat)
    requires Placed(s) && i in s.chains && k < |s.chains[i]| && j in s.chains && l < |s.chains[j]|
    requires s.chains[i][k] == s.chains[j][l]
    ensures i == j && k == l
  {
  }

  /** Each refresh token is exchanged at most once, whatever the interleaving. */
  lemma SingleUse(calls: seq<Call>, m: nat, n: nat, token: Token)
    requires FreshTokens(calls) && Traded(calls, m, token) && Traded(calls, n, token)
    ensures m == n
  {
    var i := TradeExtends(calls, m, token);
    var j := TradeExtends(calls, n, token);
    if m < n {
      TradedIsSpent(calls, m, n, token);
    } else if n < m {
      TradedIsSpent(calls, n, m, token);
    }
  }

  /** A traded token is last on no chain from then on. */
  lemma TradedIsSpent(calls: seq<Call>, m: nat, n: nat, token: Token)
    requires FreshTokens(calls) && m < n <= |calls| && Traded(calls, m, token)
    ensures forall j :: j in At(calls, n).chains && At(calls, n).chains[j] != [] ==> Last(At(calls, n).chains[j]) != token
  {
    var i := TradeExtends(calls, m, token);
    Later(calls, m + 1, n);
    Superseded(At(calls, m), At(calls, m + 1), At(calls, n), i, NewToken(calls[m]));
    LastOnlyIfLast(At(calls, n), i, |At(calls, m).chains[i]| - 1);
  }

  lemma LastOnlyIfLast(s: Store, i: Id, k: nat)
    requires Placed(s) && i in s.chains && k < |s.chains[i]| - 1
    ensures forall j :: j in s.chains && s.chains[j] != [] ==> Last(s.chains[j]) != s.chains[i][k]
  {
    assert s.slots[s.chains[i][k]] == (i, k);
    forall j | j in s.chains && s.chains[j] != [] ensures Last(s.chains[j]) != s.chains[i][k] {
      assert s.slots[Last(s.chains[j])] == (j, |s.chains[j]| - 1);
    }
  }

  /** After the append, the old last token is never last again. */
  lemma Superseded(s: Store, t: Store, u: Store, i: Id, newToken: Token)
    requires i in s.chains && s.chains[i] != [] && Appends(s, t, i, newToken) && Evolves(t, u) && HoldsLast(u)
    ensures i in u.chains && |u.chains[i]| > |s.chains[i]| && u.chains[i][|s.chains[i]| - 1] == Last(s.chains[i])
  {
    assert t.Chain(i) == s.chains[i] + [newToken] && t.Chain(i) <= u.Chain(i);
    assert u.Chain(i)[|s.chains[i]| - 1] == t.Chain(i)[|s.chains[i]| - 1];
  }

  /** In every store: chains are disjoint, one per row, and only a chain's last token matches its row. */
  lemma Lineage(calls: seq<Call>, k: nat)
    requires FreshTokens(calls) && k <= |calls|
    ensures var s := At(calls, k);
            && s.chains.Keys == s.sessions.Keys
            && (forall i :: i in s.sessions ==>
                  && s.chains[i] != []
                  && Last(s.chains[i]).exp.Some? && Last(s.chains[i]).exp.value > 0
                  && s.sessions[i].expiresAt == 1000 * Last(s.chains[i]).exp.value
                  && s.sessions[i].user == Last(s.chains[i]).user)
            && (forall i, token :: i in s.sessions ==> (s.sessions[i].tokenHash == Sha256(token) <==> token == Last(s.chains[i])))
            && (forall i, j, m, n :: i in s.chains && j in s.chains && 0 <= m < |s.chains[i]| && 0 <= n < |s.chains[j]| ==>
                  s.chains[i][m] == s.chains[j][n] ==> i == j && m == n)
  {
    Later(calls, k, k);
    var s := At(calls, k);
    forall i | i in s.sessions ensures RowHolds(s.sessions[i], s.chains[i]) {
    }
    forall i, j, m, n | i in s.chains && j in s.chains && 0 <= m < |s.chains[i]| && 0 <= n < |s.chains[j]|
                        && s.chains[i][m] == s.chains[j][n]
      ensures i == j && m == n
    {
      OnePlace(s, i, m, j, n);
    }
  }

  // ------------------------------------------------------------------ revocation

  /** Once a row is revoked, it and its chain never change again. */
  lemma RevokedForGood(calls: seq<Call>, m: nat, n: nat, i: Id)
    requires FreshTokens(calls) && m <= n <= |calls|
    requires i in At(calls, m).sessions && At(calls, m).sessions[i].revokedAt.Some?
    ensures i in At(calls, n).sessions && At(calls, n).sessions[i] == At(calls, m).sessions[i]
    ensures At(calls, n).Chain(i) == At(calls, m).Chain(i)
  {
    Later(calls, m, n);
  }

  /** No token of a revoked chain is exchanged after the revocation, however early the refresh read. */
  lemma RevokedChainIsDead(calls: seq<Call>, m: nat, n: nat, i: Id, token: Token)
    requires FreshTokens(calls) && m <= n && Traded(calls, n, token)
    requires i in At(calls, m).sessions && At(calls, m).sessions[i].revokedAt.Some?
    ensures token !in At(calls, m).Chain(i)
  {
    RevokedForGood(calls, m, n, i);
    var j := TradeExtends(calls, n, token);
    Later(calls, n, n);
    LastOnOneChain(At(calls, n), j, i);
  }

  lemma LastOnOneChain(s: Store, j: Id, i: Id)
    requires Placed(s) && j in s.chains && s.chains[j] != [] && i != j
    ensures Last(s.chains[j]) !in s.Chain(i)
  {
    assert s.slots[Last(s.chains[j])] == (j, |s.chains[j]| - 1);
  }

  /** Logging out everywhere kills every token handed to the user before it. */
  lemma LogoutEverywhere(calls: seq<Call>, m: nat, n: nat, i: Id, token: Token)
    requires FreshTokens(calls) && m < n && Traded(calls, n, token)
    requires calls[m].SignOut? && calls[m].device == None
    requires i in At(calls, m).sessions && At(calls, m).sessions[i].user == calls[m].user
    ensures token !in At(calls, m).Chain(i)
  {
    assert calls[..m + 1][..m] == calls[..m];
    var s, t := At(calls, m), At(calls, m + 1);
    assert t == Logout(s, calls[m].user, None, calls[m].now);
    assert t.sessions[i].revokedAt.Some?;
    RevokedChainIsDead(calls, m + 1, n, i, token);
  }

  /** Logging out one device revokes the live row whose last token it is, and no other. */
  lemma LogoutOneDevice(calls: seq<Call>, m: nat, i: Id)
    requires FreshTokens(calls) && m < |calls| && calls[m].SignOut? && calls[m].device.Some?
    requires i in At(calls, m).sessions
    ensures var s, t := At(calls, m), At(calls, m + 1); var row := s.sessions[i];
            && i in t.sessions && i in s.chains && s.chains[i] != []
            && t.sessions[i] == (if row.user == calls[m].user && row.revokedAt == None && Last(s.chains[i]) == calls[m].device.value
                                 then row.(revokedAt := Some(calls[m].now)) else row)
  {
    Lineage(calls, m);
    assert calls[..m + 1][..m] == calls[..m];
    var s, t := At(calls, m), At(calls, m + 1);
    assert t == Logout(s, calls[m].user, calls[m].device, calls[m].now);
  }

  // ------------------------------------------------------------------- row counts

  function RowsOf(s: Store, user: Id): set<Id> {
    set i | i in s.sessions && s.sessions[i].user == user
  }

  /** The calls of the run that opened a session for the user. */
  function Openings(calls: seq<Call>, user: Id): nat {
    if calls == [] then 0
    else
      var n := |calls| - 1;
      Openings(calls[..n], user)
      + if (calls[n].SignUp? || calls[n].SignIn?) && calls[n].user == user && Outcome(Run(calls[..n]), calls[n]).Ok?
        then 1 else 0
  }

  /** A user's rows count the logins that created them: refresh and logout never add or drop one. */
  lemma {:induction false} RowsCountLogins(calls: seq<Call>, user: Id)
    requires FreshTokens(calls)
    ensures |RowsOf(Now(Run(calls)), user)| == Openings(calls, user)
  {
    if calls == [] {
      assert RowsOf(EMPTY, user) == {};
    } else {
      var n := |calls| - 1;
      assert FreshTokens(calls[..n]);
      RowsCountLogins(calls[..n], user);
      RunIsSound(calls[..n]);
      NonceUnused(Now(Run(calls[..n])), calls);
      StepCounts(Run(calls[..n]), calls[n], user);
    }
  }

  lemma StepCounts(h: History, call: Call, user: Id)
    requires SoundHistory(h) && (Signs(call) ==> NewToken(call) !in Now(h).slots)
    ensures |RowsOf(Next(h, call), user)| == |RowsOf(Now(h), user)|
            + if (call.SignUp? || call.SignIn?) && call.user == user && Outcome(h, call).Ok? then 1 else 0
  {
    var s, t := Now(h), Next(h, call);
    if Outcome(h, call).Ok? && (call.SignUp? || call.SignIn?) {
      OpensOneRow(h, call);
      CountsOneMore(s, t, call.newId, user);
    } else {
      KeepsOwners(h, call);
      CountsAsMany(s, t, user);
    }
  }

  lemma CountsOneMore(s: Store, t: Store, newId: Id, user: Id)
    requires newId !in s.sessions && newId in t.sessions && t.sessions == s.sessions[newId := t.sessions[newId]]
    ensures |RowsOf(t, user)| == |RowsOf(s, user)| + if t.sessions[newId].user == user then 1 else 0
  {
    assert RowsOf(t, user) == RowsOf(s, user) + if t.sessions[newId].user == user then {newId} else {};
  }

  lemma CountsAsMany(s: Store, t: Store, user: Id)
    requires t.sessions.Keys == s.sessions.Keys
    requires forall i :: i in s.sessions ==> t.sessions[i].user == s.sessions[i].user
    ensures |RowsOf(t, user)| == |RowsOf(s, user)|
  {
    assert RowsOf(t, user) == RowsOf(s, user);
  }

  lemma OpensOneRow(h: History, call: Call)
    requires (call.SignUp? || call.SignIn?) && Outcome(h, call).Ok?
    ensures var s, t := Now(h), Next(h, call);
            && call.newId !in s.sessions && call.newId in t.sessions
            && t.sessions == s.sessions[call.newId := t.sessions[call.newId]]
            && t.sessions[call.newId].user == call.user
  {
  }

  lemma KeepsOwners(h: History, call: Call)
    requires SoundHistory(h) && (Signs(call) ==> NewToken(call) !in Now(h).slots)
    requires Outcome(h, call).Err? || !(call.SignUp? || call.SignIn?)
    ensures Next(h, call).sessions.Keys == Now(h).sessions.Keys
    ensures forall i :: i in Now(h).sessions ==> Next(h, call).sessions[i].user == Now(h).sessions[i].user
  {
    if call.Exchange? && Outcome(h, call).Ok? {
      var i := ExchangeKeeps(h, call);
    }
  }

  /** A trade changes its own row only. */
  lemma TradeLeavesOthers(calls: seq<Call>, k: nat, token: Token)
    requires FreshTokens(calls) && Traded(calls, k, token)
    ensures At(calls, k + 1).sessions.Keys == At(calls, k).sessions.Keys
    ensures forall i :: i in At(calls, k).sessions && At(calls, k).sessions[i].tokenHash != Sha256(token) ==>
              At(calls, k + 1).sessions[i] == At(calls, k).sessions[i]
  {
    var i := TradeExtends(calls, k, token);
    Later(calls, k, k);
    assert RowHolds(At(calls, k).sessions[i], At(calls, k).chains[i]);
  }

  /** When nothing intervenes, exactly the last token of a live, unexpired chain of an active user trades. */
  lemma RefreshSucceedsExactly(calls: seq<Call>, call: Call)
    requires FreshTokens(calls + [call]) && call.Exchange? && call.userAge == call.sessionAge == 0
    ensures var s := Now(Run(calls));
            Outcome(Run(calls), call).Ok? <==>
            && call.user in s.users && s.users[call.user].active
            && DecodeExpiry(NewToken(call)).Ok?
            && exists i :: i in s.sessions && Tradable(s, i, call.user, call.token, call.now)
  {
    assert (calls + [call])[..|calls|] == calls;
    assert FreshTokens(calls) by {
      assert forall k :: 0 <= k < |calls| ==> calls[k] == (calls + [call])[k];
    }
    RunIsSound(calls);
    NonceUnused(Now(Run(calls)), calls + [call]);
    NowRefreshes(Now(Run(calls)), call.user, call.token, NewToken(call), call.now);
  }

  predicate Tradable(s: Store, i: Id, user: Id, token: Token, now: nat)
    requires i in s.sessions
  {
    && i in s.chains && s.chains[i] != [] && Last(s.chains[i]) == token
    && s.sessions[i].user == user && s.sessions[i].revokedAt == None && s.sessions[i].expiresAt > now
  }

  lemma NowRefreshes(s: Store, user: Id, token: Token, newToken: Token, now: nat)
    requires Sound(s) && newToken !in s.slots
    ensures Refresh(s, s, s, user, token, newToken, now).Ok? <==>
            && user in s.users && s.users[user].active
            && DecodeExpiry(newToken).Ok?
            && exists i :: i in s.sessions && Tradable(s, i, user, token, now)
  {
    if Sha256(newToken) in s.sessionOf {
      IndexedIsPlaced(s, newToken);
    }
    if i :| i in s.sessions && Tradable(s, i, user, token, now) {
      assert RowHolds(s.sessions[i], s.chains[i]);
      assert s.sessionOf[Sha256(token)] == i;
    }
    if Refresh(s, s, s, user, token, newToken, now).Ok? {
      var i := s.sessionOf[Sha256(token)];
      assert RowHolds(s.sessions[i], s.chains[i]);
      assert Tradable(s, i, user, token, now);
    }
  }

  lemma IndexedIsPlaced(s: Store, token: Token)
    requires Sound(s) && Sha256(token) in s.sessionOf
    ensures token in s.slots
  {
    var j := s.sessionOf[Sha256(token)];
    assert RowHolds(s.sessions[j], s.chains[j]);
    assert s.chains[j][|s.chains[j]| - 1] == token;
  }

  // ---------------------------------------------------------------- signing in and out

  /** A token with an expiry of its own, that no session has yet. */
  predicate Usable(s: Store, newId: Id, token: Token) {
    && token.exp.Some? && token.exp.value > 0
    && newId !in s.sessions && Sha256(token) !in s.sessionOf
  }

  /** A login succeeds exactly for the account's own password, a verified address and an active account. */
  lemma LoginExactly(seen: Store, s: Store, user: Id, password: nat, newId: Id, token: Token)
    requires Usable(s, newId, token)
    ensures var outcome := Login(seen, s, user, password, newId, token);
            && (outcome.Ok? <==> user in seen.users && seen.users[user] == User(Some(password), true, true))
            && (outcome.Err? ==>
                  outcome.error == if user !in seen.users || seen.users[user].password != Some(password) then InvalidCredentials
                                   else if !seen.users[user].emailVerified then EmailNotVerified else AccountSuspended)
  {
  }

  /** And opens one session: the user's, with the token's hash and expiry, not revoked. */
  lemma LoginOpensOne(seen: Store, s: Store, user: Id, password: nat, newId: Id, token: Token)
    requires Login(seen, s, user, password, newId, token).Ok?
    ensures var t := Login(seen, s, user, password, newId, token).value;
            && Usable(s, newId, token) && t.users == s.users
            && t.sessions == s.sessions[newId := Session(token.user, Sha256(token), 1000 * token.exp.value, None)]
  {
  }

  /** However stale the read, no one signs in but with a password some store of the run had for an account that was verified and active. */
  lemma {:induction false} OnlyThePasswordSignsIn(calls: seq<Call>, user: Id, password: nat, newId: Id, jti: nat, exp: Option<nat>, userAge: nat)
    requires Outcome(Run(calls), SignIn(user, password, newId, jti, exp, userAge)).Ok?
    ensures exists s :: s in Run(calls) && user in s.users && s.users[user] == User(Some(password), true, true)
  {
    var h := Run(calls);
    LoginOpensOne(View(h, userAge), Now(h), user, password, newId, Token(user, jti, exp));
    LoginExactly(View(h, userAge), Now(h), user, password, newId, Token(user, jti, exp));
  }

  /** Registration succeeds exactly for a new user; the account starts unverified and inactive, with one session. */
  lemma RegisterExactly(s: Store, user: Id, password: nat, newId: Id, token: Token)
    ensures var outcome := Register(s, user, password, newId, token);
            && (outcome.Ok? <==> user !in s.users && Usable(s, newId, token))
            && (outcome.Ok? ==>
                  && outcome.value.users == s.users[user := User(Some(password), false, false)]
                  && outcome.value.sessions == s.sessions[newId := Session(token.user, Sha256(token), 1000 * token.exp.value, None)])
            && (outcome.Err? ==>
                  outcome.error == if user in s.users || (token.exp.Some? && token.exp.value > 0) then UniqueViolation else InvalidToken)
  {
  }

  /** So no new account can sign in before it is verified and activated. */
  lemma NewAccountsWait(s: Store, user: Id, password: nat, newId: Id, token: Token, other: nat, nextId: Id, next: Token)
    requires Register(s, user, password, newId, token).Ok?
    ensures var t := Register(s, user, password, newId, token).value;
            Usable(t, nextId, next) ==>
              Login(t, t, user, other, nextId, next) == Err(if other == password then EmailNotVerified else InvalidCredentials)
  {
    RegisterExactly(s, user, password, newId, token);
  }

  /** A logout revokes exactly the user's live rows, of that token or of all, and changes nothing else. */
  lemma LogoutExactly(s: Store, user: Id, device: Option<Token>, now: nat)
    ensures var t := Logout(s, user, device, now);
            && t == s.(sessions := t.sessions) && t.sessions.Keys == s.sessions.Keys
            && forall i :: i in s.sessions ==>
                 var row := s.sessions[i];
                 t.sessions[i] == if row.user == user && row.revokedAt == None && (device == None || row.tokenHash == Sha256(device.value))
                                  then row.(revokedAt := Some(now)) else row
  {
  }

  /** What a refresh is refused with, for every staleness of its reads. */
  lemma RefreshAnswers(seenUser: Store, seenSession: Store, s: Store, user: Id, token: Token, newToken: Token, now: nat)
    ensures var outcome := Refresh(seenUser, seenSession, s, user, token, newToken, now);
            && (outcome.Ok? ==>
                  && user in seenUser.users && seenUser.users[user].active
                  && Sha256(token) in seenSession.sessionOf
                  && var i := seenSession.sessionOf[Sha256(token)];
                     && i in seenSession.sessions && i in s.sessions
                     && seenSession.sessions[i].user == user && seenSession.sessions[i].expiresAt > now
                     && seenSession.sessions[i].revokedAt == None && s.sessions[i].revokedAt == None
                     && s.sessions[i].tokenHash == Sha256(token)
                     && newToken.exp.Some? && newToken.exp.value > 0 && Sha256(newToken) !in s.sessionOf
                     && outcome.value.sessions
                        == s.sessions[i := s.sessions[i].(tokenHash := Sha256(newToken), expiresAt := 1000 * newToken.exp.value)])
            && (outcome.Err? ==>
                  if user in seenUser.users && !seenUser.users[user].active then outcome.error == AccountSuspended
                  else outcome.error == InvalidToken || (outcome.error == UniqueViolation && Sha256(newToken) in s.sessionOf))
  {
  }
}
