/**
 * Runs of whole calls: sign-ins, refreshes, logouts and user operations one after the other,
 * with time passing. Every response and removal is noted in a history, and the token table is
 * proved to be what the history says.
 */
module SessionRuns {
  import opened Prelude
  import opened Users
  import UserRuns
  import opened SessionLog
  import opened Sessions

  datatype Config = Config(bc: Bcrypt, life: nat)

  datatype State = State(db: Table, tokens: Tokens, now: int, log: Log)

  datatype Call =
    | SignIn(email: string, password: string, random: Token)  // the login request
    | Login(user: UserId, random: Token)                      // the service's login, for a user found otherwise
    | Refresh(token: Token, random: Token)
    | Logout(token: Token)
    | LogoutAll(user: UserId)
    | ChangeUsers(op: UserRuns.Op)
    | Wait(ms: nat)

  function Noted(s: State, tokens: Tokens, e: Event): State {
    s.(tokens := tokens, log := s.log + [e])
  }

  ghost function Step(cfg: Config, s: State, c: Call): State {
    match c
    case SignIn(email, password, random) =>
      var r := SignInCall(cfg.bc, s.db, s.tokens, cfg.life, s.now, email, password, random);
      Noted(s, r.0, if r.1.Ok? then LoggedIn(r.0[random].userId, random, s.now) else Quiet)
    case Login(user, random) =>
      var r := IssueCall(s.db, s.tokens, cfg.life, s.now, user, random);
      Noted(s, r.0, if r.1.Ok? then LoggedIn(user, random, s.now) else Quiet)
    case Refresh(token, random) =>
      var r := RefreshCall(s.db, s.tokens, cfg.life, s.now, token, random);
      Noted(s, r.0,
            match r.1
            case Ok(minted) => Rotated(s.tokens[token].userId, token, minted, s.now)
            case Err(TokenExpired) => Dropped(token, EXPIRED)
            case Err(SaveFailed) => Dropped(token, SAVE_FAILED)
            case Err(_) => Quiet)
    case Logout(token) =>
      Noted(s, LogoutCall(s.tokens, token), if token in s.tokens then Dropped(token, LOGOUT) else Quiet)
    case LogoutAll(user) =>
      Noted(s, LogoutAllCall(s.tokens, user), RevokedAll(user))
    case ChangeUsers(op) => s.(db := UserRuns.Apply(cfg.bc, s.db, op).0)
    case Wait(ms) => s.(now := s.now + ms)
  }

  function Start(db: Table, now: int): State {
    State(db, map[], now, [])
  }

  ghost function Run(cfg: Config, s: State, calls: seq<Call>): State {
    if calls == [] then s else Step(cfg, Run(cfg, s, calls[..|calls| - 1]), calls[|calls| - 1])
  }

  /** Random tokens are new: none has been issued before. */
  ghost predicate FreshRandom(s: State, c: Call) {
    c.SignIn? || c.Login? || c.Refresh? ==> Origin(s.log, c.random).None?
  }

  ghost predicate Admissible(cfg: Config, s: State, calls: seq<Call>) {
    calls == [] ||
    (Admissible(cfg, s, calls[..|calls| - 1]) && FreshRandom(Run(cfg, s, calls[..|calls| - 1]), calls[|calls| - 1]))
  }

  // ---- the table is what the history says --------------------------------------------------

  ghost predicate Inv(cfg: Config, s: State) {
    && Strict(s.log, cfg.life)
    && (forall t :: t in s.tokens <==> Alive(s.log, t))
    && (forall t :: t in s.tokens ==> RowFromHistory(cfg, s, t))
  }

  ghost predicate RowFromHistory(cfg: Config, s: State, t: Token)
    requires t in s.tokens
  {
    && Origin(s.log, t).Some?
    && s.tokens[t] == TokenRow(t, Origin(s.log, t).value.user, Origin(s.log, t).value.at + cfg.life)
    && s.tokens[t].userId in s.db
  }

  lemma LoginKeepsInv(cfg: Config, s: State, user: UserId, random: Token)
    requires Inv(cfg, s) && Origin(s.log, random).None? && user in s.db
    ensures var r := IssueCall(s.db, s.tokens, cfg.life, s.now, user, random);
            r.1 == Ok(random) && Inv(cfg, Noted(s, r.0, LoggedIn(user, random, s.now)))
  {
    if Alive(s.log, random) { AliveIsIssued(s.log, random); }
    Appended(s.log, LoggedIn(user, random, s.now));
  }

  lemma RotationKeepsInv(cfg: Config, s: State, token: Token, random: Token)
    requires Inv(cfg, s) && Origin(s.log, random).None?
    requires token in s.tokens && !s.tokens[token].IsExpired(s.now)
    ensures var user := s.tokens[token].userId;
            var r := IssueCall(s.db, s.tokens - {token}, cfg.life, s.now, user, random);
            r.1 == Ok(random) && Inv(cfg, Noted(s, r.0, Rotated(user, token, random, s.now)))
  {
    if Alive(s.log, random) { AliveIsIssued(s.log, random); }
    assert RowFromHistory(cfg, s, token);
    Appended(s.log, Rotated(s.tokens[token].userId, token, random, s.now));
  }

  lemma DropKeepsInv(cfg: Config, s: State, token: Token, reason: Reason)
    requires Inv(cfg, s) && token in s.tokens
    ensures Inv(cfg, Noted(s, s.tokens - {token}, Dropped(token, reason)))
  {
    Appended(s.log, Dropped(token, reason));
  }

  lemma RevocationKeepsInv(cfg: Config, s: State, user: UserId)
    requires Inv(cfg, s)
    ensures Inv(cfg, Noted(s, LogoutAllCall(s.tokens, user), RevokedAll(user)))
  {
    Appended(s.log, RevokedAll(user));
    forall t | t in s.tokens ensures s.tokens[t].userId == user <==> OwnedBy(s.log, t, user) {
      assert RowFromHistory(cfg, s, t);
    }
  }

  lemma QuietKeepsInv(cfg: Config, s: State)
    requires Inv(cfg, s)
    ensures Inv(cfg, Noted(s, s.tokens, Quiet))
  {
    Appended(s.log, Quiet);
  }

  lemma UserOpKeepsInv(cfg: Config, s: State, op: UserRuns.Op)
    requires Inv(cfg, s)
    ensures Inv(cfg, s.(db := UserRuns.Apply(cfg.bc, s.db, op).0))
  {
    hide UserRuns.Apply;
    var s' := s.(db := UserRuns.Apply(cfg.bc, s.db, op).0);
    forall t | t in s'.tokens ensures RowFromHistory(cfg, s', t) {
      assert RowFromHistory(cfg, s, t);
      UserRuns.GivenOnlyToRows(cfg.bc, s.db, op, s.tokens[t].userId);
    }
  }

  lemma StepKeepsInv(cfg: Config, s: State, c: Call)
    requires Inv(cfg, s) && FreshRandom(s, c)
    ensures Inv(cfg, Step(cfg, s, c))
  {
    hide Inv;
    match c
    case SignIn(email, password, random) =>
      var r := ValidateCall(cfg.bc, s.db, email, password);
      if r.Ok? { LoginKeepsInv(cfg, s, r.value, random); } else { QuietKeepsInv(cfg, s); }
    case Login(user, random) =>
      if user in s.db { LoginKeepsInv(cfg, s, user, random); } else { QuietKeepsInv(cfg, s); }
    case Refresh(token, random) =>
      if token in s.tokens {
        var row := s.tokens[token];
        if row.IsExpired(s.now) { DropKeepsInv(cfg, s, token, EXPIRED); }
        else if Live(s.db, row.userId) && s.db[row.userId].status == ACTIVE { RotationKeepsInv(cfg, s, token, random); }
        else { QuietKeepsInv(cfg, s); }
      } else { QuietKeepsInv(cfg, s); }
    case Logout(token) =>
      if token in s.tokens { DropKeepsInv(cfg, s, token, LOGOUT); }
      else { QuietKeepsInv(cfg, s); assert s.tokens - {token} == s.tokens; }
    case LogoutAll(user) => RevocationKeepsInv(cfg, s, user);
    case ChangeUsers(op) => UserOpKeepsInv(cfg, s, op);
    case Wait(_) => TimeKeepsInv(cfg, s, c.ms);
  }

  lemma TimeKeepsInv(cfg: Config, s: State, ms: nat)
    requires Inv(cfg, s)
    ensures Inv(cfg, s.(now := s.now + ms))
  {
    assert forall t :: t in s.tokens ==> RowFromHistory(cfg, s, t);
  }

  lemma {:induction false} InvHolds(cfg: Config, db: Table, now: int, calls: seq<Call>)
    requires Admissible(cfg, Start(db, now), calls)
    ensures Inv(cfg, Run(cfg, Start(db, now), calls))
  {
    if calls != [] {
      InvHolds(cfg, db, now, calls[..|calls| - 1]);
      StepKeepsInv(cfg, Run(cfg, Start(db, now), calls[..|calls| - 1]), calls[|calls| - 1]);
    }
  }

  ghost predicate RunTo(cfg: Config, db: Table, now: int, calls: seq<Call>, s: State) {
    Admissible(cfg, Start(db, now), calls) && s == Run(cfg, Start(db, now), calls)
  }

  /** A state met in some run of whole calls that began with an empty token table. */
  ghost predicate Reachable(cfg: Config, s: State) {
    exists db, now, calls :: RunTo(cfg, db, now, calls, s)
  }

  lemma ReachableInv(cfg: Config, s: State)
    requires Reachable(cfg, s)
    ensures Inv(cfg, s) && Sane(s.log)
  {
    var db, now, calls :| RunTo(cfg, db, now, calls, s);
    InvHolds(cfg, db, now, calls);
    StrictIsSane(s.log, cfg.life);
  }

  // ---- theorems ----------------------------------------------------------------------------

  /** The owner and the issue time on record allow a refresh now. */
  predicate MayRefresh(cfg: Config, s: State, origin: Option<Event>) {
    && origin.Some? && (origin.value.LoggedIn? || origin.value.Rotated?)
    && s.now <= origin.value.at + cfg.life
    && Live(s.db, origin.value.user) && s.db[origin.value.user].status == ACTIVE
  }

  /**
   * When a refresh succeeds, over all runs: the token was issued, nothing has ended it since (no
   * redemption, logout, expiry or revocation), its lifetime from issue has not passed (the exact
   * end instant still counts), and its owner is live and ACTIVE.
   */
  lemma RefreshSucceedsExactly(cfg: Config, s: State, token: Token, random: Token)
    requires Reachable(cfg, s) && Origin(s.log, random).None?
    ensures RefreshCall(s.db, s.tokens, cfg.life, s.now, token, random).1.Ok? <==>
              Alive(s.log, token) && MayRefresh(cfg, s, Origin(s.log, token))
  {
    hide Reachable, Strict, Alive, Origin;
    ReachableInv(cfg, s);
    if token in s.tokens {
      assert RowFromHistory(cfg, s, token);
      if !s.tokens[token].IsExpired(s.now) { RotationKeepsInv(cfg, s, token, random); }
    }
  }

  /**
   * What a successful refresh does: the caller gets the new token, the old one is gone, and the
   * new row belongs to the old one's user for a whole lifetime from now.
   */
  lemma RefreshMovesTheSession(cfg: Config, s: State, token: Token, random: Token)
    requires Reachable(cfg, s) && Origin(s.log, random).None?
    requires RefreshCall(s.db, s.tokens, cfg.life, s.now, token, random).1.Ok?
    ensures Origin(s.log, token).Some?
    ensures RefreshCall(s.db, s.tokens, cfg.life, s.now, token, random) ==
              ((s.tokens - {token})[random := TokenRow(random, Origin(s.log, token).value.user, s.now + cfg.life)], Ok(random))
    ensures random !in s.tokens
  {
    hide Reachable, Strict;
    ReachableInv(cfg, s);
    assert RowFromHistory(cfg, s, token);
    if Alive(s.log, random) { AliveIsIssued(s.log, random); }
  }

  /** The user operations of a run of calls, in order. */
  function UserOps(calls: seq<Call>): seq<UserRuns.Op> {
    if calls == [] then []
    else
      var c := calls[|calls| - 1];
      UserOps(calls[..|calls| - 1]) + if c.ChangeUsers? then [c.op] else []
  }

  /** Sessions do not touch the users table: after a run from empty tables it is what the user operations made of it. */
  lemma UsersInAStep(cfg: Config, s: State, c: Call)
    ensures Step(cfg, s, c).db == if c.ChangeUsers? then UserRuns.Apply(cfg.bc, s.db, c.op).0 else s.db
  {
    hide UserRuns.Apply;
  }

  lemma {:induction false} UsersAreFromUserOps(cfg: Config, now: int, calls: seq<Call>)
    ensures Run(cfg, Start(map[], now), calls).db == UserRuns.Run(cfg.bc, UserOps(calls))
  {
    hide UserRuns.Apply, Step;
    if calls != [] {
      var init, c := calls[..|calls| - 1], calls[|calls| - 1];
      UsersAreFromUserOps(cfg, now, init);
      UsersInAStep(cfg, Run(cfg, Start(map[], now), init), c);
      if c.ChangeUsers? { assert UserOps(calls)[..|UserOps(init)|] == UserOps(init); }
      else { assert UserOps(calls) == UserOps(init); }
    }
  }

  /**
   * When a sign-in succeeds, after any run of sessions and user operations from empty tables: some
   * live ACTIVE user has that email and the password given opens the one last set for that user.
   */
  lemma SignInSucceedsExactly(cfg: Config, now: int, calls: seq<Call>, email: string, password: string, random: Token)
    requires Sound(cfg.bc) && Admissible(cfg, Start(map[], now), calls)
    requires Origin(Run(cfg, Start(map[], now), calls).log, random).None?
    ensures var s, ops := Run(cfg, Start(map[], now), calls), UserOps(calls);
            SignInCall(cfg.bc, s.db, s.tokens, cfg.life, s.now, email, password, random).1.Ok? <==>
              exists id :: && Live(s.db, id) && s.db[id].email == email && s.db[id].status == ACTIVE
                           && UserRuns.Opens(cfg.bc, UserRuns.LastGiven(cfg.bc, ops, id), password)
  {
    hide Run, UserRuns.Run, UserRuns.LastGiven, UserRuns.Opens, Sound, ValidateCall;
    var s, ops := Run(cfg, Start(map[], now), calls), UserOps(calls);
    UsersAreFromUserOps(cfg, now, calls);
    InvHolds(cfg, map[], now, calls);
    forall id ensures ValidateCall(cfg.bc, s.db, email, password) == Ok(id) <==>
        Live(s.db, id) && s.db[id].email == email && s.db[id].status == ACTIVE
        && UserRuns.Opens(cfg.bc, UserRuns.LastGiven(cfg.bc, ops, id), password)
    {
      UserRuns.ValidateAcceptsExactly(cfg.bc, ops, email, password, id);
    }
    var checked := ValidateCall(cfg.bc, s.db, email, password);
    if checked.Ok? { LoginKeepsInv(cfg, s, checked.value, random); }
  }

  /** A refresh with an unknown token, or for a user who is gone or not ACTIVE, leaves the table as it is. */
  lemma RefusedRefreshChangesNothing(cfg: Config, s: State, token: Token, random: Token)
    requires Reachable(cfg, s) && Origin(s.log, random).None?
    ensures var r := RefreshCall(s.db, s.tokens, cfg.life, s.now, token, random);
            r.1.Err? && r.1 != Err(TokenExpired) ==> r.0 == s.tokens
  {
    ReachableInv(cfg, s);
    if token in s.tokens && !s.tokens[token].IsExpired(s.now) {
      assert RowFromHistory(cfg, s, token);
      RotationKeepsInv(cfg, s, token, random);
    }
  }

  /** Each live token has exactly one rotation chain back to a login, all of it for the row's user. */
  lemma LiveTokensHaveOneLineage(cfg: Config, s: State, t: Token)
    requires Reachable(cfg, s) && t in s.tokens
    ensures IsChain(s.log, Chain(s.log, t), t)
    ensures forall ts :: IsChain(s.log, ts, t) ==> ts == Chain(s.log, t)
    ensures forall x :: x in Chain(s.log, t) ==> OwnedBy(s.log, x, s.tokens[t].userId)
  {
    ReachableInv(cfg, s);
    assert RowFromHistory(cfg, s, t);
    EveryTokenHasOneChain(s.log, t);
  }

  /** No token is redeemed twice, and a redeemed token is not in the table. */
  lemma TokensAreSingleUse(cfg: Config, s: State, t: Token)
    requires Reachable(cfg, s)
    ensures Redemptions(s.log, t) <= 1
    ensures t in s.tokens ==> Redemptions(s.log, t) == 0
  {
    ReachableInv(cfg, s);
    RedeemedAtMostOnce(s.log, cfg.life, t);
  }

  /** After logoutAll(u), whatever follows, no live token of u descends from a login made before. */
  lemma LogoutAllEndsEarlierSessions(cfg: Config, s: State, k: nat, t: Token)
    requires Reachable(cfg, s) && k < |s.log| && s.log[k].RevokedAll?
    requires t in s.tokens && s.tokens[t].userId == s.log[k].user
    ensures LoginIndex(s.log, t) > k
  {
    ReachableInv(cfg, s);
    assert RowFromHistory(cfg, s, t);
    RevocationCutsLineage(s.log, cfg.life, k, t);
  }

  /** A live token whose chain has k rotations ends at most k + 1 lifetimes after the login it comes from. */
  lemma ChainsLastSoManyLifetimes(cfg: Config, s: State, t: Token)
    requires Reachable(cfg, s) && t in s.tokens
    ensures Chain(s.log, t) != [] && Origin(s.log, Chain(s.log, t)[0]).Some?
    ensures s.tokens[t].expiresAt <= Origin(s.log, Chain(s.log, t)[0]).value.at + |Chain(s.log, t)| * cfg.life
  {
    ReachableInv(cfg, s);
    assert RowFromHistory(cfg, s, t);
    ChainSpan(s.log, cfg.life, t);
    assert |Chain(s.log, t)| * cfg.life == (|Chain(s.log, t)| - 1) * cfg.life + cfg.life;
  }

  // ---- counting ----------------------------------------------------------------------------

  function TokensOf(s: State, u: UserId): set<Token> {
    set t | t in s.tokens && s.tokens[t].userId == u
  }

  lemma TokensOfAreSessions(cfg: Config, s: State, u: UserId)
    requires Inv(cfg, s)
    ensures TokensOf(s, u) == LiveTokens(s.log, u)
  {
    SessionsAreTheLiving(s.log, cfg.life, u);
    assert forall t :: t in s.tokens ==> RowFromHistory(cfg, s, t);
  }

  /** Conservation of sessions: logins less tokens logged out or expired, since the last logoutAll. */
  lemma SessionCountIsBalance(cfg: Config, s: State, u: UserId)
    requires Reachable(cfg, s)
    ensures |TokensOf(s, u)| == Balance(s.log, u)
  {
    ReachableInv(cfg, s);
    TokensOfAreSessions(cfg, s, u);
    SessionsAreConserved(s.log, cfg.life, u);
  }

  /** A successful refresh leaves every user's number of sessions as it was. */
  lemma RefreshKeepsCounts(cfg: Config, s: State, token: Token, random: Token, u: UserId)
    requires Reachable(cfg, s) && Origin(s.log, random).None?
    requires RefreshCall(s.db, s.tokens, cfg.life, s.now, token, random).1.Ok?
    ensures |TokensOf(Step(cfg, s, Refresh(token, random)), u)| == |TokensOf(s, u)|
  {
    ReachableInv(cfg, s);
    var s' := Step(cfg, s, Refresh(token, random));
    StepKeepsInv(cfg, s, Refresh(token, random));
    TokensOfAreSessions(cfg, s, u);
    TokensOfAreSessions(cfg, s', u);
    SessionsAreConserved(s.log, cfg.life, u);
    SessionsAreConserved(s'.log, cfg.life, u);
    Appended(s.log, Last(s'.log));
  }

  // ---- inactive users ----------------------------------------------------------------------

  predicate Active(db: Table, u: UserId) {
    Live(db, u) && db[u].status == ACTIVE
  }

  /**
   * One call on a user who is not an ACTIVE live one: that user's sessions only shrink, unless
   * the service's login is called directly for that user, which does not look at the status.
   */
  lemma OnlyDirectLoginAddsForInactive(cfg: Config, s: State, c: Call, u: UserId)
    requires Reachable(cfg, s) && FreshRandom(s, c) && !Active(s.db, u)
    ensures !(TokensOf(Step(cfg, s, c), u) <= TokensOf(s, u)) <==> c.Login? && c.user == u && u in s.db
  {
    ReachableInv(cfg, s);
    var s' := Step(cfg, s, c);
    if c.Login? && c.user == u && u in s.db {
      LoginKeepsInv(cfg, s, u, c.random);
      assert c.random in TokensOf(s', u) && c.random !in TokensOf(s, u) by {
        if Alive(s.log, c.random) { AliveIsIssued(s.log, c.random); }
      }
    }
  }

  ghost predicate NeverActive(cfg: Config, s: State, calls: seq<Call>, u: UserId) {
    forall n :: 0 <= n <= |calls| ==> !Active(Run(cfg, s, calls[..n]).db, u)
  }

  lemma ReachableInAStep(cfg: Config, s: State, c: Call)
    requires Reachable(cfg, s) && FreshRandom(s, c)
    ensures Reachable(cfg, Step(cfg, s, c))
  {
    hide Step, FreshRandom;
    var db, now, before :| RunTo(cfg, db, now, before, s);
    var calls := before + [c];
    assert calls[..|calls| - 1] == before;
    assert RunTo(cfg, db, now, calls, Step(cfg, s, c));
  }

  lemma {:induction false} ReachableGoesOn(cfg: Config, s: State, calls: seq<Call>)
    requires Reachable(cfg, s) && Admissible(cfg, s, calls)
    ensures Reachable(cfg, Run(cfg, s, calls))
  {
    hide Reachable, Step, FreshRandom;
    if calls != [] {
      var init, c := calls[..|calls| - 1], calls[|calls| - 1];
      ReachableGoesOn(cfg, s, init);
      ReachableInAStep(cfg, Run(cfg, s, init), c);
    }
  }

  /** While a user stays non-ACTIVE through a run of requests, that user's live tokens only get fewer. */
  lemma {:induction false} SessionsOfInactiveUsersShrink(cfg: Config, s: State, calls: seq<Call>, u: UserId)
    requires Reachable(cfg, s) && Admissible(cfg, s, calls) && NeverActive(cfg, s, calls, u)
    requires forall c :: c in calls && c.Login? ==> c.user != u
    ensures TokensOf(Run(cfg, s, calls), u) <= TokensOf(s, u)
  {
    if calls != [] {
      var init, c := calls[..|calls| - 1], calls[|calls| - 1];
      assert forall n :: 0 <= n <= |init| ==> init[..n] == calls[..n];
      assert NeverActive(cfg, s, init, u);
      SessionsOfInactiveUsersShrink(cfg, s, init, u);
      ReachableGoesOn(cfg, s, init);
      assert calls[..|init|] == init;
      OnlyDirectLoginAddsForInactive(cfg, Run(cfg, s, init), c, u);
    }
  }
}
