/**
 * Many requests in flight at once. Each await of AuthService ends a step, and the steps of
 * different requests, revocations, changes of users and the passing of time interleave freely.
 * A request that is never advanced again is one that stopped.
 */
module SessionInterleaving {
  import opened Prelude
  import opened Users
  import opened SessionLog
  import opened Sessions

  /**
   * SignInReq is a login request whose email and password are the user's; one with other
   * credentials ends without an effect. LoginReq calls the service's login directly.
   */
  datatype Kind = RefreshReq(token: Token) | LogoutReq(token: Token) | SignInReq(user: UserId) | LoginReq(user: UserId)

  datatype Next = ROTATE | PURGE | SIGN_OUT

  /** How far a request has come, with what it remembers: rows are snapshots taken when they were read. */
  datatype Stage =
    | Begun
    | Holding(row: TokenRow, owner: Option<Status>)
    | Removing(row: TokenRow, next: Next)
    | Minting(user: UserId, from: Option<Token>)
    | Saving(row: TokenRow, from: Option<Token>)
    | Finished(result: Option<Token>)

  datatype Request = Request(kind: Kind, stage: Stage)

  datatype State = State(
    db: Table, tokens: Tokens, now: int, requests: seq<Request>, minted: set<Token>, log: Log)

  datatype Action =
    | Spawn(kind: Kind)
    | Advance(r: nat, random: Token)
    | RevokeAll(user: UserId)
    | UsersBecome(db: Table)
    | Wait(ms: nat)

  /** One request has gone on to another stage; the others, the users and the time are as before. */
  predicate OneMoved(s: State, s': State, r: nat)
    requires r < |s.requests|
  {
    && |s'.requests| == |s.requests| && s'.requests == s.requests[r := s'.requests[r]]
    && s'.requests[r].kind == s.requests[r].kind && s'.db == s.db && s'.now == s.now
  }

  function At(s: State, r: nat, stage: Stage): State
    requires r < |s.requests|
  {
    s.(requests := s.requests[r := s.requests[r].(stage := stage)])
  }

  predicate Active(db: Table, u: UserId) {
    Live(db, u) && db[u].status == ACTIVE
  }

  /** findOne with the user relation, for a refresh; findOne, for a logout; validateUser, for a sign-in. */
  function LookUp(s: State, r: nat): (s': State)
    requires r < |s.requests|
    ensures OneMoved(s, s', r)
  {
    match s.requests[r].kind
    case RefreshReq(t) =>
      if t in s.tokens then
        var row := s.tokens[t];
        var owner := if Live(s.db, row.userId) then Some(s.db[row.userId].status) else None;
        At(s, r, Holding(row, owner)).(log := s.log + [Hit(r, t)])
      else At(s, r, Finished(None))
    case LogoutReq(t) =>
      if t in s.tokens then At(s, r, Removing(s.tokens[t], SIGN_OUT)) else At(s, r, Finished(None))
    case SignInReq(u) => At(s, r, if Active(s.db, u) then Minting(u, None) else Finished(None))
    case LoginReq(u) => At(s, r, Minting(u, None))
  }

  /** The checks on the row that was found, as of now. */
  function Check(s: State, r: nat): (s': State)
    requires r < |s.requests| && s.requests[r].stage.Holding?
    ensures OneMoved(s, s', r)
  {
    var stage := s.requests[r].stage;
    if stage.row.IsExpired(s.now) then At(s, r, Removing(stage.row, PURGE))
    else if stage.owner != Some(ACTIVE) then At(s, r, Finished(None))
    else At(s, r, Removing(stage.row, ROTATE))
  }

  /** remove: takes the row out if it is still there. */
  function TakeOut(s: State, r: nat): (s': State)
    requires r < |s.requests| && s.requests[r].stage.Removing?
    ensures OneMoved(s, s', r)
  {
    var stage := s.requests[r].stage;
    At(s, r, if stage.next == ROTATE then Minting(stage.row.userId, Some(stage.row.token)) else Finished(None))
      .(tokens := s.tokens - {stage.row.token})
  }

  /** The random token and its expiry are made. */
  function Mint(life: nat, s: State, r: nat, random: Token): (s': State)
    requires r < |s.requests| && s.requests[r].stage.Minting?
    ensures OneMoved(s, s', r)
  {
    var stage := s.requests[r].stage;
    At(s, r, Saving(TokenRow(random, stage.user, s.now + life), stage.from)).(minted := s.minted + {random})
  }

  /** What a save that goes through adds to the history. */
  function Issue(life: nat, row: TokenRow, from: Option<Token>): Event {
    match from
    case None => LoggedIn(row.userId, row.token, row.expiresAt - life)
    case Some(x) => Rotated(row.userId, x, row.token, row.expiresAt - life)
  }

  /** save: the new row is inserted, and the caller gets the token. */
  function Save(life: nat, s: State, r: nat): (s': State)
    requires r < |s.requests| && s.requests[r].stage.Saving?
    ensures OneMoved(s, s', r)
  {
    var Saving(row, from) := s.requests[r].stage;
    if row.userId !in s.db || row.token in s.tokens then At(s, r, Finished(None))
    else
      At(s, r, Finished(Some(row.token)))
        .(tokens := s.tokens[row.token := row],
          log := s.log + [Issue(life, row, from)])
  }

  function Step(life: nat, s: State, a: Action): State {
    match a
    case Spawn(kind) => s.(requests := s.requests + [Request(kind, Begun)])
    case Advance(r, random) =>
      if r >= |s.requests| then s
      else (match s.requests[r].stage
        case Begun => LookUp(s, r)
        case Holding(_, _) => Check(s, r)
        case Removing(_, _) => TakeOut(s, r)
        case Minting(_, _) => Mint(life, s, r, random)
        case Saving(_, _) => Save(life, s, r)
        case Finished(_) => s)
    case RevokeAll(user) => s.(tokens := LogoutAllCall(s.tokens, user))
    case UsersBecome(db) => if s.db.Keys <= db.Keys then s.(db := db) else s  // user rows are never dropped
    case Wait(ms) => s.(now := s.now + ms)
  }

  function Start(db: Table, now: int): State {
    State(db, map[], now, [], {}, [])
  }

  function Run(life: nat, s: State, actions: seq<Action>): State {
    if actions == [] then s
    else Step(life, Run(life, s, actions[..|actions| - 1]), actions[|actions| - 1])
  }

  predicate FreshRandom(s: State, a: Action) {
    a.Advance? && a.r < |s.requests| && s.requests[a.r].stage.Minting? ==> a.random !in s.minted
  }

  predicate Admissible(life: nat, s: State, actions: seq<Action>) {
    actions == [] ||
    (Admissible(life, s, actions[..|actions| - 1])
     && FreshRandom(Run(life, s, actions[..|actions| - 1]), actions[|actions| - 1]))
  }

  // ---- the invariant -----------------------------------------------------------------------

  ghost predicate RowKnown(s: State, row: TokenRow) {
    OwnedBy(s.log, row.token, row.userId) && row.userId in s.db
  }

  /** What a request rotating a token has done to it: taken it out. */
  ghost predicate SourceSpent(s: State, kind: Kind, user: UserId, from: Option<Token>) {
    match from
    case None => kind == LoginReq(user) || kind == SignInReq(user)
    case Some(x) => kind == RefreshReq(x) && OwnedBy(s.log, x, user) && x !in s.tokens && user in s.db
  }

  ghost predicate RequestOk(s: State, q: Request) {
    match q.stage
    case Holding(row, _) => q.kind == RefreshReq(row.token) && RowKnown(s, row)
    case Removing(row, next) =>
      RowKnown(s, row) && q.kind == if next == SIGN_OUT then LogoutReq(row.token) else RefreshReq(row.token)
    case Minting(user, from) => SourceSpent(s, q.kind, user, from)
    case Saving(row, from) =>
      SourceSpent(s, q.kind, row.userId, from) && row.token in s.minted && Origin(s.log, row.token).None?
    case _ => true
  }

  ghost predicate Inv(s: State) {
    && Sane(s.log)
    && (forall t :: t in s.tokens ==> s.tokens[t].token == t && RowKnown(s, s.tokens[t]))
    && (forall t :: Origin(s.log, t).Some? ==> t in s.minted)
    && (forall r :: 0 <= r < |s.requests| ==> RequestOk(s, s.requests[r]))
    && (forall i, k :: 0 <= i < k < |s.requests| && s.requests[i].stage.Saving? && s.requests[k].stage.Saving? ==>
          s.requests[i].stage.row.token != s.requests[k].stage.row.token)
  }

  /** Moving one request on to a stage whose claims hold. */
  lemma StageKeepsInv(s: State, r: nat, stage: Stage)
    requires Inv(s) && r < |s.requests| && !stage.Saving?
    requires RequestOk(s, s.requests[r].(stage := stage))
    ensures Inv(At(s, r, stage))
  {
    hide Origin, Sane;
    var s' := At(s, r, stage);
    forall i | 0 <= i < |s.requests| ensures RequestOk(s', s'.requests[i]) {
      assert i != r ==> RequestOk(s, s.requests[i]);
    }
  }

  lemma HitKeepsInv(s: State, e: Event)
    requires Inv(s) && e.Hit?
    ensures Inv(s.(log := s.log + [e]))
  {
    hide Origin;
    var s' := s.(log := s.log + [e]);
    Appended(s.log, e);
    OriginAppended(s.log, e);
    forall i | 0 <= i < |s.requests| ensures RequestOk(s', s'.requests[i]) {
      assert RequestOk(s, s.requests[i]);
    }
  }

  lemma LookUpKeepsInv(s: State, r: nat)
    requires Inv(s) && r < |s.requests| && s.requests[r].stage.Begun?
    ensures Inv(LookUp(s, r))
  {
    hide Origin, Sane;
    var stage := LookUp(s, r).requests[r].stage;
    StageKeepsInv(s, r, stage);
    if LookUp(s, r).log != s.log { HitKeepsInv(At(s, r, stage), Last(LookUp(s, r).log)); }
  }

  lemma CheckKeepsInv(s: State, r: nat)
    requires Inv(s) && r < |s.requests| && s.requests[r].stage.Holding?
    ensures Inv(Check(s, r))
  {
    hide Origin, Sane;
    assert RequestOk(s, s.requests[r]);
    StageKeepsInv(s, r, Check(s, r).requests[r].stage);
  }

  lemma TakeOutKeepsInv(s: State, r: nat)
    requires Inv(s) && r < |s.requests| && s.requests[r].stage.Removing?
    ensures Inv(TakeOut(s, r))
  {
    var s' := TakeOut(s, r);
    forall i | 0 <= i < |s.requests| ensures RequestOk(s', s'.requests[i]) {
      assert RequestOk(s, s.requests[i]);
    }
  }

  lemma MintKeepsInv(life: nat, s: State, r: nat, random: Token)
    requires Inv(s) && r < |s.requests| && s.requests[r].stage.Minting? && random !in s.minted
    ensures Inv(Mint(life, s, r, random))
  {
    var s' := Mint(life, s, r, random);
    forall i | 0 <= i < |s.requests| ensures RequestOk(s', s'.requests[i]) {
      assert RequestOk(s, s.requests[i]);
    }
  }

  lemma SaveKeepsInv(life: nat, s: State, r: nat)
    requires Inv(s) && r < |s.requests| && s.requests[r].stage.Saving?
    ensures Inv(Save(life, s, r))
  {
    var s', row := Save(life, s, r), s.requests[r].stage.row;
    if row.userId !in s.db || row.token in s.tokens {
      hide Origin, Sane;
      StageKeepsInv(s, r, Finished(None));
    } else {
      forall i | 0 <= i < |s.requests| ensures RequestOk(s', s'.requests[i]) {
        OthersAfterSave(life, s, r, i);
      }
      hide Origin, RequestOk;
      HistoryAfterSave(life, s, r);
    }
  }

  lemma HistoryAfterSave(life: nat, s: State, r: nat)
    requires Inv(s) && r < |s.requests| && s.requests[r].stage.Saving?
    requires s.requests[r].stage.row.userId in s.db && s.requests[r].stage.row.token !in s.tokens
    ensures var s' := Save(life, s, r);
            && Sane(s'.log)
            && (forall t :: t in s'.tokens ==> s'.tokens[t].token == t && RowKnown(s', s'.tokens[t]))
            && (forall t :: Origin(s'.log, t).Some? ==> t in s'.minted)
  {
    hide Origin;
    var s', row := Save(life, s, r), s.requests[r].stage.row;
    assert RequestOk(s, s.requests[r]);
    Appended(s.log, Last(s'.log));
    OriginAppended(s.log, Last(s'.log));
    forall t | t in s'.tokens ensures s'.tokens[t].token == t && RowKnown(s', s'.tokens[t]) {
      assert t != row.token ==> RowKnown(s, s.tokens[t]);
    }
  }

  lemma OthersAfterSave(life: nat, s: State, r: nat, i: nat)
    requires Inv(s) && r < |s.requests| && s.requests[r].stage.Saving? && i < |s.requests|
    ensures RequestOk(Save(life, s, r), Save(life, s, r).requests[i])
  {
    hide Origin, Sane;
    var s' := Save(life, s, r);
    if s'.log != s.log {
      Appended(s.log, Last(s'.log));
      OriginAppended(s.log, Last(s'.log));
    }
    assert RequestOk(s, s.requests[i]) && RequestOk(s, s.requests[r]);
  }

  lemma StepKeepsInv(life: nat, s: State, a: Action)
    requires Inv(s) && FreshRandom(s, a)
    ensures Inv(Step(life, s, a))
  {
    match a
    case Advance(r, random) =>
      hide Inv;
      if r < |s.requests| {
        match s.requests[r].stage
        case Begun => LookUpKeepsInv(s, r);
        case Holding(_, _) => CheckKeepsInv(s, r);
        case Removing(_, _) => TakeOutKeepsInv(s, r);
        case Minting(_, _) => MintKeepsInv(life, s, r, random);
        case Saving(_, _) => SaveKeepsInv(life, s, r);
        case Finished(_) =>
      }
    case _ => EnvironmentKeepsInv(life, s, a);
  }

  lemma EnvironmentKeepsInv(life: nat, s: State, a: Action)
    requires Inv(s) && !a.Advance?
    ensures Inv(Step(life, s, a))
  {
    var s' := Step(life, s, a);
    forall i | 0 <= i < |s'.requests| ensures RequestOk(s', s'.requests[i]) {
      if i < |s.requests| { assert RequestOk(s, s.requests[i]); }
    }
  }

  lemma {:induction false} RunKeepsInv(life: nat, s: State, actions: seq<Action>)
    requires Inv(s) && Admissible(life, s, actions)
    ensures Inv(Run(life, s, actions))
  {
    if actions != [] {
      RunKeepsInv(life, s, actions[..|actions| - 1]);
      StepKeepsInv(life, Run(life, s, actions[..|actions| - 1]), actions[|actions| - 1]);
    }
  }

  /** Under any interleaving each live token has exactly one rotation chain, all of it for its user. */
  lemma LiveTokensHaveOneLineage(life: nat, db: Table, now: int, actions: seq<Action>, t: Token)
    requires Admissible(life, Start(db, now), actions) && t in Run(life, Start(db, now), actions).tokens
    ensures var s := Run(life, Start(db, now), actions);
            && IsChain(s.log, Chain(s.log, t), t)
            && (forall ts :: IsChain(s.log, ts, t) ==> ts == Chain(s.log, t))
            && (forall x :: x in Chain(s.log, t) ==> OwnedBy(s.log, x, s.tokens[t].userId))
  {
    RunKeepsInv(life, Start(db, now), actions);
    EveryTokenHasOneChain(Run(life, Start(db, now), actions).log, t);
  }
}
