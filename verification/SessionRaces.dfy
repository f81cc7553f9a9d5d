/**
 * What interleaved requests can and cannot do: the bound on the redemptions of a refresh token,
 * exactly how often it can still be redeemed, when single use does hold, which requests let a
 * session survive a revocation, and which start one for a user who is not active.
 */
module SessionRaces {
  import opened Prelude
  import opened Users
  import opened SessionLog
  import opened Sessions
  import opened SessionInterleaving

  // ---- a removed token never comes back ----------------------------------------------------

  /** Issued at some time, and not in the table. */
  ghost predicate Gone(s: State, t: Token) {
    Origin(s.log, t).Some? && t !in s.tokens
  }

  /** How many refresh requests have found the row of a token. */
  function Hits(log: Log, t: Token): nat {
    if log == [] then 0
    else Hits(Init(log), t) + if Last(log).Hit? && Last(log).token == t then 1 else 0
  }

  /** What one step can append to the history. */
  lemma StepAppends(life: nat, s: State, a: Action) returns (e: Option<Event>)
    ensures e.None? ==> Step(life, s, a).log == s.log
    ensures e.Some? ==> Step(life, s, a).log == s.log + [e.value]
    ensures e.Some? ==> a.Advance? && a.r < |s.requests|
    ensures e.Some? && s.requests[a.r].stage.Begun? ==>
              s.requests[a.r].kind.RefreshReq? && s.requests[a.r].kind.token in s.tokens
              && e.value == Hit(a.r, s.requests[a.r].kind.token)
    ensures e.Some? && !s.requests[a.r].stage.Begun? ==>
              s.requests[a.r].stage.Saving? && Issues(e.value, s.requests[a.r].stage.row.token)
              && (e.value.Rotated? ==> s.requests[a.r].stage.from == Some(e.value.from))
              && (e.value.LoggedIn? ==> s.requests[a.r].stage.from == None)
              && e.value.user == s.requests[a.r].stage.row.userId
              && Step(life, s, a).tokens == s.tokens[s.requests[a.r].stage.row.token := s.requests[a.r].stage.row]
  {
    var s' := Step(life, s, a);
    if s'.log == s.log { e := None; } else { e := Some(Last(s'.log)); }
  }

  lemma GoneStaysInAStep(life: nat, s: State, a: Action, t: Token)
    requires Inv(s) && FreshRandom(s, a) && Gone(s, t)
    ensures Gone(Step(life, s, a), t) && Hits(Step(life, s, a).log, t) == Hits(s.log, t)
  {
    var e := StepAppends(life, s, a);
    if e.Some? {
      Appended(s.log, e.value);
      OriginAppended(s.log, e.value);
      assert RequestOk(s, s.requests[a.r]);
    }
  }

  /**
   * Once a token has been removed it is never in the table again, whatever interleaving follows,
   * and no refresh request finds it any more.
   */
  lemma {:induction false} RemovedTokensNeverReturn(life: nat, s: State, actions: seq<Action>, t: Token)
    requires Inv(s) && Admissible(life, s, actions) && Gone(s, t)
    ensures Gone(Run(life, s, actions), t)
    ensures Hits(Run(life, s, actions).log, t) == Hits(s.log, t)
  {
    if actions != [] {
      RemovedTokensNeverReturn(life, s, actions[..|actions| - 1], t);
      RunKeepsInv(life, s, actions[..|actions| - 1]);
      GoneStaysInAStep(life, Run(life, s, actions[..|actions| - 1]), actions[|actions| - 1], t);
    }
  }

  // ---- redemptions are bounded by lookups --------------------------------------------------

  /** A refresh request that has found the token, and that its checks do not or did not refuse. */
  predicate MayRedeem(q: Request, now: int, t: Token) {
    q.kind == RefreshReq(t) &&
    match q.stage
    case Holding(row, owner) => owner == Some(ACTIVE) && !row.IsExpired(now)
    case Removing(_, next) => next == ROTATE
    case Minting(_, _) => true
    case Saving(_, _) => true
    case _ => false
  }

  function InFlight(requests: seq<Request>, now: int, t: Token): nat {
    if requests == [] then 0
    else InFlight(requests[..|requests| - 1], now, t) + if MayRedeem(requests[|requests| - 1], now, t) then 1 else 0
  }

  lemma {:induction false} InFlightUpdated(requests: seq<Request>, now: int, r: nat, q: Request, t: Token)
    requires r < |requests|
    ensures InFlight(requests[r := q], now, t) + (if MayRedeem(requests[r], now, t) then 1 else 0)
         == InFlight(requests, now, t) + (if MayRedeem(q, now, t) then 1 else 0)
  {
    var n := |requests| - 1;
    if r < n {
      InFlightUpdated(requests[..n], now, r, q, t);
      assert requests[r := q][..n] == requests[..n][r := q];
    } else {
      assert requests[r := q][..n] == requests[..n];
    }
  }

  lemma {:induction false} InFlightShrinksWithTime(requests: seq<Request>, now: int, ms: nat, t: Token)
    ensures InFlight(requests, now + ms, t) <= InFlight(requests, now, t)
  {
    if requests != [] { InFlightShrinksWithTime(requests[..|requests| - 1], now, ms, t); }
  }

  ghost predicate WithinLookups(s: State, t: Token) {
    Redeemable(s, t) <= Hits(s.log, t)
  }

  lemma AdvanceChangesOne(life: nat, s: State, a: Action)
    requires a.Advance? && a.r < |s.requests|
    ensures OneMoved(s, Step(life, s, a), a.r)
  {
    hide LookUp, Check, TakeOut, Mint, Save;
  }

  lemma HitsAndRedemptionsAppended(log: Log, e: Event, t: Token)
    ensures Hits(log + [e], t) == Hits(log, t) + if e.Hit? && e.token == t then 1 else 0
    ensures Redemptions(log + [e], t) == Redemptions(log, t) + if e.Rotated? && e.from == t then 1 else 0
  {
    Appended(log, e);
  }

  /** The step finds the row of the token. */
  predicate Finds(s: State, a: Action, t: Token) {
    a.Advance? && a.r < |s.requests| && s.requests[a.r] == Request(RefreshReq(t), Begun) && t in s.tokens
  }

  /** Redemptions made and still possible. */
  function Redeemable(s: State, t: Token): nat {
    Redemptions(s.log, t) + InFlight(s.requests, s.now, t)
  }

  lemma LookUpLogs(s: State, r: nat, t: Token)
    requires r < |s.requests| && s.requests[r].stage.Begun?
    ensures var s', found := LookUp(s, r), s.requests[r].kind == RefreshReq(t) && t in s.tokens;
            && Hits(s'.log, t) == Hits(s.log, t) + (if found then 1 else 0)
            && Redemptions(s'.log, t) == Redemptions(s.log, t)
  {
    hide Hits, Redemptions;
    var kind := s.requests[r].kind;
    if kind.RefreshReq? { HitsAndRedemptionsAppended(s.log, Hit(r, kind.token), t); }
  }

  lemma LookUpCounts(life: nat, s: State, r: nat, random: Token, t: Token)
    requires r < |s.requests| && s.requests[r].stage.Begun?
    ensures var s', found := LookUp(s, r), Finds(s, Advance(r, random), t);
            && Hits(s'.log, t) == Hits(s.log, t) + (if found then 1 else 0)
            && Redeemable(s', t) <= Redeemable(s, t) + (if found && !s.tokens[t].IsExpired(s.now) then 1 else 0)
  {
    InFlightUpdated(s.requests, s.now, r, LookUp(s, r).requests[r], t);
    LookUpLogs(s, r, t);
    hide InFlight, Hits, Redemptions;
  }

  lemma SaveEndsRequest(life: nat, s: State, r: nat, t: Token)
    requires r < |s.requests| && s.requests[r].stage.Saving?
    ensures var s' := Save(life, s, r);
            InFlight(s'.requests, s'.now, t) + (if s.requests[r].kind == RefreshReq(t) then 1 else 0)
            == InFlight(s.requests, s.now, t)
  {
    InFlightUpdated(s.requests, s.now, r, Save(life, s, r).requests[r], t);
    hide InFlight;
  }

  lemma SaveLogs(life: nat, s: State, r: nat, t: Token)
    requires r < |s.requests| && s.requests[r].stage.Saving?
    ensures var s' := Save(life, s, r);
            && Hits(s'.log, t) == Hits(s.log, t)
            && Redemptions(s'.log, t) <= Redemptions(s.log, t) + if s.requests[r].stage.from == Some(t) then 1 else 0
  {
    hide Hits, Redemptions;
    var stage := s.requests[r].stage;
    HitsAndRedemptionsAppended(s.log, Issue(life, stage.row, stage.from), t);
  }

  lemma SaveCounts(life: nat, s: State, r: nat, t: Token)
    requires Inv(s) && r < |s.requests| && s.requests[r].stage.Saving?
    ensures var s' := Save(life, s, r); Hits(s'.log, t) == Hits(s.log, t) && Redeemable(s', t) <= Redeemable(s, t)
  {
    hide Inv, InFlight, Save, Hits, Redemptions;
    if s.requests[r].stage.from.Some? { SourceIsNamed(s, s.requests[r]); }
    SaveEndsRequest(life, s, r, t);
    SaveLogs(life, s, r, t);
  }

  lemma SourceIsNamed(s: State, q: Request)
    requires Inv(s) && q in s.requests && q.stage.Saving? && q.stage.from.Some?
    ensures q.kind == RefreshReq(q.stage.from.value)
  {
    hide Origin, Sane;
    assert RequestOk(s, q);
  }

  lemma OtherStepsCount(life: nat, s: State, a: Action, t: Token)
    requires Inv(s) && a.Advance? && a.r < |s.requests| && !s.requests[a.r].stage.Begun? && !s.requests[a.r].stage.Saving?
    ensures Step(life, s, a).log == s.log && Redeemable(Step(life, s, a), t) <= Redeemable(s, t)
  {
    var s' := Step(life, s, a);
    AdvanceChangesOne(life, s, a);
    InFlightUpdated(s.requests, s.now, a.r, s'.requests[a.r], t);
    assert RequestOk(s, s.requests[a.r]);
    hide InFlight, Sane, Origin, Redemptions, Inv, LookUp, Save;
  }

  /**
   * Only a lookup that finds the row before its expiry makes another redemption possible; no
   * other step does, and each redemption uses up one that was under way.
   */
  lemma StepCounts(life: nat, s: State, a: Action, t: Token)
    requires Inv(s)
    ensures var s', found := Step(life, s, a), Finds(s, a, t);
            && Hits(s'.log, t) == Hits(s.log, t) + (if found then 1 else 0)
            && Redeemable(s', t) <= Redeemable(s, t) + (if found && !s.tokens[t].IsExpired(s.now) then 1 else 0)
  {
    hide Inv, Hits, Redemptions, LookUp, Check, TakeOut, Mint, Save;
    match a
    case Spawn(_) => assert Step(life, s, a).requests[..|s.requests|] == s.requests;
    case Wait(ms) => InFlightShrinksWithTime(s.requests, s.now, ms, t);
    case Advance(r, random) =>
      hide Redeemable;
      if r < |s.requests| {
        if s.requests[r].stage.Begun? { LookUpCounts(life, s, r, random, t); }
        else if s.requests[r].stage.Saving? { SaveCounts(life, s, r, t); }
        else { OtherStepsCount(life, s, a, t); }
      }
    case _ =>
  }

  lemma {:induction false} RedemptionsStayWithinLookups(life: nat, s: State, actions: seq<Action>, t: Token)
    requires Inv(s) && Admissible(life, s, actions) && WithinLookups(s, t)
    ensures WithinLookups(Run(life, s, actions), t)
  {
    if actions != [] {
      RedemptionsStayWithinLookups(life, s, actions[..|actions| - 1], t);
      RunKeepsInv(life, s, actions[..|actions| - 1]);
      StepCounts(life, Run(life, s, actions[..|actions| - 1]), actions[|actions| - 1], t);
    }
  }

  /**
   * However a run goes on after the token's removal (the end of `before`), the token is redeemed
   * in all at most as often as refresh requests had found it by then.
   */
  lemma RedemptionsAtMostLookupsBeforeRemoval(
    life: nat, db: Table, now: int, before: seq<Action>, after: seq<Action>, t: Token)
    requires Admissible(life, Start(db, now), before)
    requires Gone(Run(life, Start(db, now), before), t)
    requires Admissible(life, Run(life, Start(db, now), before), after)
    ensures var s := Run(life, Start(db, now), before);
            Redemptions(Run(life, s, after).log, t) <= Hits(s.log, t)
  {
    var s := Run(life, Start(db, now), before);
    RunKeepsInv(life, Start(db, now), before);
    RedemptionsStayWithinLookups(life, Start(db, now), before, t);
    RedemptionsStayWithinLookups(life, s, after, t);
    RemovedTokensNeverReturn(life, s, after, t);
  }

  // ---- single use --------------------------------------------------------------------------

  /** At every moment at most one refresh request is under way with the token. */
  ghost predicate OneAtATime(life: nat, s: State, actions: seq<Action>, t: Token) {
    forall n :: 0 <= n <= |actions| ==> var m := Run(life, s, actions[..n]); InFlight(m.requests, m.now, t) <= 1
  }

  ghost predicate UsedOnce(s: State, t: Token) {
    Redeemable(s, t) <= 1 && (Redemptions(s.log, t) == 1 ==> Gone(s, t))
  }

  /** A request about to save a token in place of another has taken that one out before. */
  lemma SourceIsGone(s: State, r: nat, t: Token)
    requires Inv(s) && r < |s.requests| && s.requests[r].stage.Saving? && s.requests[r].stage.from == Some(t)
    ensures Gone(s, t)
  {
    hide Sane, Origin;
    assert RequestOk(s, s.requests[r]);
  }

  lemma RedemptionsAreGone(life: nat, s: State, a: Action, t: Token)
    requires Inv(s) && FreshRandom(s, a) && (Redemptions(s.log, t) >= 1 ==> Gone(s, t))
    ensures Redemptions(Step(life, s, a).log, t) >= 1 ==> Gone(Step(life, s, a), t)
  {
    hide Inv, Step, Gone, FreshRandom;
    if Gone(s, t) {
      GoneStaysInAStep(life, s, a, t);
    } else {
      var e := StepAppends(life, s, a);
      if e.Some? {
        HitsAndRedemptionsAppended(s.log, e.value, t);
        if e.value.Rotated? && e.value.from == t { SourceIsGone(s, a.r, t); }
      }
    }
  }

  lemma StepKeepsUsedOnce(life: nat, s: State, a: Action, t: Token)
    requires Inv(s) && FreshRandom(s, a) && UsedOnce(s, t)
    requires var s' := Step(life, s, a); InFlight(s'.requests, s'.now, t) <= 1
    ensures UsedOnce(Step(life, s, a), t)
  {
    RedemptionsAreGone(life, s, a, t);
    hide Inv, Step, InFlight, Redemptions, Hits;
    StepCounts(life, s, a, t);
  }

  /**
   * Whatever else overlaps, a token whose own refresh requests come one at a time is redeemed at
   * most once.
   */
  lemma {:induction false} OneAtATimeIsSingleUse(life: nat, db: Table, now: int, actions: seq<Action>, t: Token)
    requires Admissible(life, Start(db, now), actions) && OneAtATime(life, Start(db, now), actions, t)
    ensures UsedOnce(Run(life, Start(db, now), actions), t)
    ensures Redemptions(Run(life, Start(db, now), actions).log, t) <= 1
  {
    if actions != [] {
      var init := actions[..|actions| - 1];
      assert forall n :: 0 <= n <= |init| ==> init[..n] == actions[..n];
      OneAtATimeIsSingleUse(life, db, now, init, t);
      RunKeepsInv(life, Start(db, now), init);
      assert actions[..|actions|] == actions;
      StepKeepsUsedOnce(life, Run(life, Start(db, now), init), actions[|actions| - 1], t);
    }
  }

  /** At most one request is under way. */
  ghost predicate NoOverlap(s: State) {
    forall i, k :: 0 <= i < k < |s.requests| ==> s.requests[i].stage.Finished? || s.requests[k].stage.Finished?
  }

  ghost predicate NeverOverlaps(life: nat, s: State, actions: seq<Action>) {
    forall n :: 0 <= n <= |actions| ==> NoOverlap(Run(life, s, actions[..n]))
  }

  lemma {:induction false} NoneInFlight(requests: seq<Request>, now: int, t: Token)
    requires forall i :: 0 <= i < |requests| ==> !MayRedeem(requests[i], now, t)
    ensures InFlight(requests, now, t) == 0
  {
    if requests != [] { NoneInFlight(requests[..|requests| - 1], now, t); }
  }

  lemma AtMostOneInFlight(s: State, t: Token)
    requires NoOverlap(s)
    ensures InFlight(s.requests, s.now, t) <= 1
  {
    if r: nat :| r < |s.requests| && MayRedeem(s.requests[r], s.now, t) {
      var idle := s.requests[r := s.requests[r].(stage := Finished(None))];
      InFlightUpdated(s.requests, s.now, r, idle[r], t);
      forall i | 0 <= i < |idle| ensures !MayRedeem(idle[i], s.now, t) {
        if i != r { assert s.requests[i].stage.Finished?; }
      }
      NoneInFlight(idle, s.now, t);
    } else {
      NoneInFlight(s.requests, s.now, t);
    }
  }

  /** In particular: in a run whose requests do not overlap at all every token is redeemed at most once. */
  lemma WithoutOverlapTokensAreSingleUse(life: nat, db: Table, now: int, actions: seq<Action>, t: Token)
    requires Admissible(life, Start(db, now), actions) && NeverOverlaps(life, Start(db, now), actions)
    ensures Redemptions(Run(life, Start(db, now), actions).log, t) <= 1
  {
    forall n | 0 <= n <= |actions| ensures var m := Run(life, Start(db, now), actions[..n]); InFlight(m.requests, m.now, t) <= 1 {
      AtMostOneInFlight(Run(life, Start(db, now), actions[..n]), t);
    }
    OneAtATimeIsSingleUse(life, db, now, actions, t);
  }

  // ---- runs that lead somewhere ------------------------------------------------------------

  ghost predicate RunsTo(life: nat, s: State, actions: seq<Action>, s': State) {
    Admissible(life, s, actions) && Run(life, s, actions) == s'
  }

  ghost predicate Leads(life: nat, s: State, s': State) {
    exists actions :: RunsTo(life, s, actions, s')
  }

  lemma EmptyRun(life: nat, s: State)
    ensures RunsTo(life, s, [], s)
  {}

  lemma LeadsNowhere(life: nat, s: State)
    ensures Leads(life, s, s)
  {
    EmptyRun(life, s);
  }

  lemma LeadsOn(life: nat, s: State, m: State, a: Action)
    requires Leads(life, s, m) && FreshRandom(m, a)
    ensures Leads(life, s, Step(life, m, a))
  {
    hide Step, FreshRandom;
    var actions :| RunsTo(life, s, actions, m);
    assert (actions + [a])[..|actions|] == actions;
    assert RunsTo(life, s, actions + [a], Step(life, m, a));
  }

  /** The continuation only takes requests on that are there already. */
  ghost predicate Finishes(life: nat, s: State, s': State) {
    exists actions :: RunsTo(life, s, actions, s') && forall a: Action :: a in actions ==> a.Advance?
  }

  lemma FinishesOn(life: nat, s: State, m: State, a: Action)
    requires Finishes(life, s, m) && FreshRandom(m, a) && a.Advance?
    ensures Finishes(life, s, Step(life, m, a))
  {
    hide Step, FreshRandom;
    var actions :| RunsTo(life, s, actions, m) && forall a: Action :: a in actions ==> a.Advance?;
    assert (actions + [a])[..|actions|] == actions;
    assert RunsTo(life, s, actions + [a], Step(life, m, a));
  }

  lemma {:induction false} RunsJoin(life: nat, s: State, a: seq<Action>, b: seq<Action>)
    requires Admissible(life, s, a) && Admissible(life, Run(life, s, a), b)
    ensures Admissible(life, s, a + b) && Run(life, s, a + b) == Run(life, Run(life, s, a), b)
  {
    hide Step, FreshRandom;
    if b == [] {
      assert a + b == a;
    } else {
      RunsJoin(life, s, a, b[..|b| - 1]);
      assert (a + b)[..|a + b| - 1] == a + b[..|b| - 1];
    }
  }

  lemma LeadsThenFinishes(life: nat, s: State, m: State, s': State)
    requires Leads(life, s, m) && Finishes(life, m, s')
    ensures Leads(life, s, s')
  {
    hide Admissible, Run;
    var a :| RunsTo(life, s, a, m);
    var b :| RunsTo(life, m, b, s') && forall x: Action :: x in b ==> x.Advance?;
    RunsJoin(life, s, a, b);
    assert RunsTo(life, s, a + b, s');
  }

  /** A refresh of u's token that has got past the point where it could be refused. */
  predicate PendingFor(s: State, q: Request, u: UserId) {
    match q.stage
    case Holding(row, owner) => row.userId == u && owner == Some(ACTIVE) && !row.IsExpired(s.now)
    case Removing(row, next) => row.userId == u && next == ROTATE
    case Minting(user, from) => user == u && from.Some?
    case Saving(row, from) => row.userId == u && from.Some?
    case _ => false
  }

  /** A login of u that is past validateUser, or does not go through it. */
  predicate PendingLogin(q: Request, u: UserId) {
    match q.stage
    case Begun => q.kind == LoginReq(u)
    case Minting(user, from) => user == u && from.None?
    case Saving(row, from) => row.userId == u && from.None?
    case _ => false
  }

  /** A request that nothing keeps any more from starting a session of u. */
  predicate Pending(s: State, q: Request, u: UserId) {
    PendingFor(s, q, u) || (PendingLogin(q, u) && u in s.db)
  }

  function StepsLeft(stage: Stage): nat {
    match stage
    case Begun => 3
    case Holding(_, _) => 4
    case Removing(_, _) => 3
    case Minting(_, _) => 2
    case Saving(_, _) => 1
    case Finished(_) => 0
  }

  lemma PendingAdvances(life: nat, m: State, r: nat, u: UserId, random: Token)
    requires Inv(m) && r < |m.requests| && Pending(m, m.requests[r], u) && !m.requests[r].stage.Saving?
    ensures var m' := Step(life, m, Advance(r, random));
            && OneMoved(m, m', r) && m'.log == m.log
            && (PendingFor(m, m.requests[r], u) ==> PendingFor(m', m'.requests[r], u))
            && Pending(m', m'.requests[r], u)
            && StepsLeft(m'.requests[r].stage) < StepsLeft(m.requests[r].stage)
  {}

  lemma PendingSaves(life: nat, m: State, r: nat, u: UserId) returns (e: Event)
    requires Inv(m) && r < |m.requests| && Pending(m, m.requests[r], u) && m.requests[r].stage.Saving?
    ensures var m', q := Save(life, m, r), m.requests[r];
            && m'.log == m.log + [e] && Issues(e, q.stage.row.token) && e.user == u
            && (PendingFor(m, q, u) ==> e.Rotated? && q.kind == RefreshReq(e.from) && OwnedBy(m.log, e.from, u))
            && e.token in m'.tokens && m'.tokens[e.token].userId == u && Origin(m.log, e.token).None?
            && m'.requests[r].stage.Finished?
  {
    hide Origin, Sane;
    var stage := m.requests[r].stage;
    assert RequestOk(m, m.requests[r]);
    e := Issue(life, stage.row, stage.from);
  }

  /** Left alone, such a request always ends with a new session of u; a refresh rotates it from its token. */
  lemma {:induction false} PendingCompletes(life: nat, s: State, m: State, r: nat, u: UserId)
    returns (m': State, e: Event)
    requires Finishes(life, s, m) && Inv(m) && r < |m.requests| && Pending(m, m.requests[r], u)
    ensures Finishes(life, s, m') && Inv(m')
    ensures OneMoved(m, m', r) && m'.log == m.log + [e]
    ensures (e.Rotated? || e.LoggedIn?) && e.user == u && Origin(m.log, e.token).None?
    ensures PendingFor(m, m.requests[r], u) ==>
              e.Rotated? && m.requests[r].kind == RefreshReq(e.from) && OwnedBy(m.log, e.from, u)
    ensures e.token in m'.tokens && m'.tokens[e.token].userId == u
    ensures m'.requests[r].stage.Finished?
    decreases StepsLeft(m.requests[r].stage)
  {
    hide Step, Inv, FreshRandom, Finishes, LookUp, Check, TakeOut, Mint, Save, Origin, PendingFor, PendingLogin, Pending, OwnedBy;
    var a := Advance(r, Unused(m.minted));
    var next := Step(life, m, a);
    UnusedIsFresh(m, r);
    FinishesOn(life, s, m, a);
    StepKeepsInv(life, m, a);
    if m.requests[r].stage.Saving? {
      AdvanceChangesOne(life, m, a);
      SavingSaves(life, m, a);
      e := PendingSaves(life, m, r, u);
      m' := next;
    } else {
      PendingAdvances(life, m, r, u, a.random);
      m', e := PendingCompletes(life, s, next, r, u);
    }
  }

  lemma UnusedIsFresh(m: State, r: nat)
    ensures FreshRandom(m, Advance(r, Unused(m.minted)))
  {}

  lemma SavingSaves(life: nat, m: State, a: Action)
    requires a.Advance? && a.r < |m.requests| && m.requests[a.r].stage.Saving?
    ensures Step(life, m, a) == Save(life, m, a.r)
  {}

  lemma PendingRefreshCompletes(life: nat, s: State, m: State, r: nat, u: UserId)
    returns (m': State, e: Event)
    requires Leads(life, s, m) && Inv(m) && r < |m.requests| && PendingFor(m, m.requests[r], u)
    ensures Leads(life, s, m') && Inv(m')
    ensures m.requests[r].kind.RefreshReq? && OwnedBy(m.log, m.requests[r].kind.token, u)
    ensures e.Rotated? && e.user == u && e.from == m.requests[r].kind.token && Origin(m.log, e.token).None?
    ensures m'.log == m.log + [e] && e.token in m'.tokens && m'.tokens[e.token].userId == u
    ensures OneMoved(m, m', r) && m'.requests[r].stage.Finished?
  {
    EmptyRun(life, m);
    m', e := PendingCompletes(life, m, m, r, u);
    LeadsThenFinishes(life, s, m, m');
  }

  // ---- how often a token can still be redeemed ---------------------------------------------

  lemma {:induction false} SomeInFlight(requests: seq<Request>, now: int, t: Token) returns (r: nat)
    requires InFlight(requests, now, t) > 0
    ensures r < |requests| && MayRedeem(requests[r], now, t)
  {
    r := |requests| - 1;
    if !MayRedeem(requests[r], now, t) { r := SomeInFlight(requests[..r], now, t); }
  }

  /** The user for whom a refresh under way with a token will rotate it. */
  lemma MayRedeemIsPending(s: State, q: Request, t: Token) returns (u: UserId)
    requires MayRedeem(q, s.now, t) && RequestOk(s, q)
    ensures PendingFor(s, q, u) && q.kind == RefreshReq(t)
  {
    u := match q.stage
      case Holding(row, _) => row.userId
      case Removing(row, _) => row.userId
      case Minting(user, _) => user
      case Saving(row, _) => row.userId
      case _ => "";
  }

  /** Each refresh under way with the token can be taken to its end, whatever became of the token. */
  lemma {:induction false} RedeemAgain(life: nat, s: State, m: State, t: Token, n: nat) returns (m': State)
    requires Leads(life, s, m) && Inv(m) && n <= InFlight(m.requests, m.now, t)
    ensures Leads(life, s, m')
    ensures Hits(m'.log, t) == Hits(m.log, t) && Redemptions(m'.log, t) == Redemptions(m.log, t) + n
    decreases n
  {
    if n == 0 {
      m' := m;
    } else {
      hide *;
      hide Finishes, Leads, Inv, PendingFor, MayRedeem;
      var r := SomeInFlight(m.requests, m.now, t);
      InvOfRequest(m, r);
      var u := MayRedeemIsPending(m, m.requests[r], t);
      var k, e := PendingRefreshCompletes(life, s, m, r, u);
      HitsAndRedemptionsAppended(m.log, e, t);
      InFlightUpdated(m.requests, m.now, r, k.requests[r], t);
      FinishedMayNotRedeem(k.requests[r], m.now, t);
      m' := RedeemAgain(life, s, k, t, n - 1);
    }
  }

  lemma InvOfRequest(s: State, r: nat)
    requires Inv(s) && r < |s.requests|
    ensures RequestOk(s, s.requests[r])
  {}

  lemma FinishedMayNotRedeem(q: Request, now: int, t: Token)
    requires q.stage.Finished?
    ensures !MayRedeem(q, now, t)
  {}

  /** Another lookup of a live token for an ACTIVE user. */
  lemma LookUpAgain(life: nat, s: State, k: State, t: Token) returns (m: State)
    requires Leads(life, s, k) && Inv(k) && t in k.tokens && !k.tokens[t].IsExpired(k.now) && Active(k.db, k.tokens[t].userId)
    ensures Leads(life, s, m) && Inv(m)
    ensures m == k.(requests := m.requests, log := k.log + [Hit(|k.requests|, t)])
    ensures InFlight(m.requests, m.now, t) == InFlight(k.requests, k.now, t) + 1
  {
    var spawn, a := Spawn(RefreshReq(t)), Advance(|k.requests|, "");
    var spawned := Step(life, k, spawn);
    m := Step(life, spawned, a);
    LeadsOn(life, s, k, spawn);
    LeadsOn(life, s, spawned, a);
    StepKeepsInv(life, k, spawn);
    StepKeepsInv(life, spawned, a);
    assert m.requests[..|k.requests|] == k.requests;
  }

  lemma {:induction false} LookUpAgainAndAgain(life: nat, s: State, k: State, t: Token, n: nat) returns (m: State)
    requires Leads(life, s, k) && Inv(k) && t in k.tokens && !k.tokens[t].IsExpired(k.now) && Active(k.db, k.tokens[t].userId)
    ensures Leads(life, s, m) && Inv(m)
    ensures InFlight(m.requests, m.now, t) == InFlight(k.requests, k.now, t) + n
    ensures Hits(m.log, t) == Hits(k.log, t) + n && Redemptions(m.log, t) == Redemptions(k.log, t)
    decreases n
  {
    hide Leads, Inv, InFlight, Active, Origin;
    m := k;
    if n > 0 {
      var next := LookUpAgain(life, s, k, t);
      HitsAndRedemptionsAppended(k.log, Hit(|k.requests|, t), t);
      m := LookUpAgainAndAgain(life, s, next, t, n - 1);
    }
  }

  /**
   * Overlapping refreshes of one token: for every n there is an interleaving in which n requests
   * find a live token and every one of them redeems it, so the bound by lookups is exact.
   */
  lemma OverlapRedeemsAnyNumberOfTimes(life: nat, s: State, t: Token, n: nat) returns (s': State)
    requires Inv(s) && t in s.tokens && !s.tokens[t].IsExpired(s.now) && Active(s.db, s.tokens[t].userId)
    ensures Leads(life, s, s')
    ensures Hits(s'.log, t) == Hits(s.log, t) + n
    ensures Redemptions(s'.log, t) == Redemptions(s.log, t) + n
  {
    LeadsNowhere(life, s);
    hide *;
    var m := LookUpAgainAndAgain(life, s, s, t, n);
    s' := RedeemAgain(life, s, m, t, n);
  }

  /** No lookup can put another refresh under way with this token. */
  ghost predicate Closed(s: State, t: Token) {
    Origin(s.log, t).Some? && (t in s.tokens ==> s.tokens[t].IsExpired(s.now))
  }

  lemma ClosedStaysInAStep(life: nat, s: State, a: Action, t: Token)
    requires Inv(s) && FreshRandom(s, a) && Closed(s, t)
    ensures Closed(Step(life, s, a), t) && Redeemable(Step(life, s, a), t) <= Redeemable(s, t)
  {
    StepCounts(life, s, a, t);
    if Gone(s, t) {
      GoneStaysInAStep(life, s, a, t);
    } else {
      ExpiredStays(life, s, a, t);
    }
  }

  lemma ExpiredStays(life: nat, s: State, a: Action, t: Token)
    requires Inv(s) && t in s.tokens && s.tokens[t].IsExpired(s.now)
    ensures Closed(Step(life, s, a), t)
  {
    var e := StepAppends(life, s, a);
    if e.Some? { OriginAppended(s.log, e.value); }
    hide Origin, Sane;
    if a.Advance? && a.r < |s.requests| { assert RequestOk(s, s.requests[a.r]); }
  }

  lemma {:induction false} ClosedStays(life: nat, s: State, actions: seq<Action>, t: Token)
    requires Inv(s) && Admissible(life, s, actions) && Closed(s, t)
    ensures Closed(Run(life, s, actions), t) && Redeemable(Run(life, s, actions), t) <= Redeemable(s, t)
  {
    hide Inv, Step, Closed, Redeemable, FreshRandom;
    if actions != [] {
      var init := actions[..|actions| - 1];
      ClosedStays(life, s, init, t);
      RunKeepsInv(life, s, init);
      ClosedStaysInAStep(life, Run(life, s, init), actions[|actions| - 1], t);
    }
  }

  /** The owner of a token that is there can become ACTIVE again. */
  lemma OwnerCanBeActive(life: nat, s: State, t: Token) returns (m: State)
    requires Inv(s) && t in s.tokens
    ensures Leads(life, s, m) && Inv(m) && m == s.(db := m.db) && Active(m.db, s.tokens[t].userId)
  {
    hide Sane, Origin;
    var u := s.tokens[t].userId;
    var a := UsersBecome(s.db[u := s.db[u].(status := ACTIVE, deleted := false)]);
    m := Step(life, s, a);
    LeadsNowhere(life, s);
    LeadsOn(life, s, s, a);
    StepKeepsInv(life, s, a);
  }

  /**
   * How often an issued token can be redeemed in all: some continuation brings it to n redemptions
   * exactly when the token is in the table unexpired, or the redemptions made and the refreshes of
   * it that are past refusal come to n. So a token can be used twice, once it has left the table,
   * exactly if these come to two.
   */
  lemma RedeemableExactly(life: nat, s: State, t: Token, n: nat)
    requires Inv(s) && Origin(s.log, t).Some?
    ensures (exists s' :: Leads(life, s, s') && Redemptions(s'.log, t) >= n) <==>
            (t in s.tokens && !s.tokens[t].IsExpired(s.now)) || Redemptions(s.log, t) + InFlight(s.requests, s.now, t) >= n
  {
    hide Inv, InFlight, Redemptions, Origin;
    if t in s.tokens && !s.tokens[t].IsExpired(s.now) {
      var m := OwnerCanBeActive(life, s, t);
      var k := LookUpAgainAndAgain(life, s, m, t, n);
      var s' := RedeemAgain(life, s, k, t, n);
    } else {
      if Redeemable(s, t) >= n {
        LeadsNowhere(life, s);
        var s' := RedeemAgain(life, s, s, t, InFlight(s.requests, s.now, t));
      }
      forall s' | Leads(life, s, s') ensures Redemptions(s'.log, t) <= Redeemable(s, t) {
        var actions :| RunsTo(life, s, actions, s');
        ClosedStays(life, s, actions, t);
      }
    }
  }

  // ---- which sessions survive a revocation -------------------------------------------------

  lemma LoginIndexAppended(log: Log, e: Event, t: Token)
    ensures !Issues(e, t) ==> LoginIndex(log + [e], t) == LoginIndex(log, t)
    ensures e.LoggedIn? && e.token == t ==> LoginIndex(log + [e], t) == |log|
    ensures e.Rotated? && e.token == t ==> LoginIndex(log + [e], t) == LoginIndex(log, e.from)
  {
    Appended(log, e);
  }

  lemma {:induction false} LoginIndexWithin(log: Log, t: Token)
    requires Sane(log) && Origin(log, t).Some?
    ensures LoginIndex(log, t) < |log|
  {
    if !Issues(Last(log), t) { LoginIndexWithin(Init(log), t); }
    else if Last(log).Rotated? { LoginIndexWithin(Init(log), Last(log).from); }
  }

  /** Every session of u, held or still to come from a pending refresh, descends from a login at k or later. */
  ghost predicate CutAt(s: State, u: UserId, k: nat) {
    && k <= |s.log|
    && (forall t :: t in s.tokens && s.tokens[t].userId == u ==> LoginIndex(s.log, t) >= k)
    && (forall r :: 0 <= r < |s.requests| && PendingFor(s, s.requests[r], u) && s.requests[r].kind.RefreshReq? ==>
          LoginIndex(s.log, s.requests[r].kind.token) >= k)
  }

  lemma LookUpKeepsCut(life: nat, s: State, r: nat, u: UserId, k: nat)
    requires Inv(s) && CutAt(s, u, k) && r < |s.requests| && s.requests[r].stage.Begun?
    ensures CutAt(LookUp(s, r), u, k)
  {
    hide Sane, Origin, LoginIndex;
    var s' := LookUp(s, r);
    if s'.log != s.log {
      var e := Last(s'.log);
      Appended(s.log, e);
      forall t ensures LoginIndex(s'.log, t) == LoginIndex(s.log, t) { LoginIndexAppended(s.log, e, t); }
    }
  }

  /** What a save that goes through does to the logins that tokens descend from. */
  lemma LoginIndexAfterSave(life: nat, s: State, r: nat, u: UserId, k: nat)
    requires Inv(s) && CutAt(s, u, k) && r < |s.requests| && s.requests[r].stage.Saving?
    requires Save(life, s, r).log != s.log
    ensures var s', row := Save(life, s, r), s.requests[r].stage.row;
            && |s'.log| == |s.log| + 1
            && (forall t :: t != row.token ==> LoginIndex(s'.log, t) == LoginIndex(s.log, t))
            && (row.userId == u ==> LoginIndex(s'.log, row.token) >= k)
  {
    hide Sane, Origin, LoginIndex;
    var s', row := Save(life, s, r), s.requests[r].stage.row;
    var e := Last(s'.log);
    Appended(s.log, e);
    assert RequestOk(s, s.requests[r]);
    forall t ensures t != row.token ==> LoginIndex(s'.log, t) == LoginIndex(s.log, t) { LoginIndexAppended(s.log, e, t); }
    LoginIndexAppended(s.log, e, row.token);
  }

  lemma SaveKeepsCut(life: nat, s: State, r: nat, u: UserId, k: nat)
    requires Inv(s) && CutAt(s, u, k) && r < |s.requests| && s.requests[r].stage.Saving?
    ensures CutAt(Save(life, s, r), u, k)
  {
    hide Sane, Origin, LoginIndex;
    var s', row := Save(life, s, r), s.requests[r].stage.row;
    if s'.log != s.log {
      LoginIndexAfterSave(life, s, r, u, k);
      assert RequestOk(s, s.requests[r]);
      forall i | 0 <= i < |s.requests| && s.requests[i].kind.RefreshReq? && PendingFor(s, s.requests[i], u)
        ensures s.requests[i].kind.token != row.token
      {
        assert RequestOk(s, s.requests[i]);
      }
    }
  }

  lemma OtherStepsKeepCut(life: nat, s: State, a: Action, u: UserId, k: nat)
    requires Inv(s) && CutAt(s, u, k)
    requires a.Advance? && a.r < |s.requests| && !s.requests[a.r].stage.Begun? && !s.requests[a.r].stage.Saving?
    ensures CutAt(Step(life, s, a), u, k)
  {
    var s' := Step(life, s, a);
    AdvanceChangesOne(life, s, a);
    assert RequestOk(s, s.requests[a.r]);
    hide Inv, LoginIndex, LookUp, Save, RequestOk;
    assert PendingFor(s', s'.requests[a.r], u) ==> PendingFor(s, s.requests[a.r], u);
    assert s'.log == s.log && s'.tokens.Keys <= s.tokens.Keys;
    hide Step;
  }

  lemma StepKeepsCut(life: nat, s: State, a: Action, u: UserId, k: nat)
    requires Inv(s) && FreshRandom(s, a) && CutAt(s, u, k)
    ensures CutAt(Step(life, s, a), u, k)
  {
    hide Inv, LoginIndex, LookUp, Check, TakeOut, Mint, Save;
    if a.Advance? {
      hide CutAt;
      if a.r < |s.requests| {
        var q := s.requests[a.r];
        if q.stage.Begun? { LookUpKeepsCut(life, s, a.r, u, k); }
        else if q.stage.Saving? { SaveKeepsCut(life, s, a.r, u, k); }
        else { OtherStepsKeepCut(life, s, a, u, k); }
      }
    }
  }

  lemma {:induction false} RunKeepsCut(life: nat, s: State, actions: seq<Action>, u: UserId, k: nat)
    requires Inv(s) && Admissible(life, s, actions) && CutAt(s, u, k)
    ensures CutAt(Run(life, s, actions), u, k)
  {
    if actions != [] {
      RunKeepsCut(life, s, actions[..|actions| - 1], u, k);
      RunKeepsInv(life, s, actions[..|actions| - 1]);
      StepKeepsCut(life, Run(life, s, actions[..|actions| - 1]), actions[|actions| - 1], u, k);
    }
  }

  /** t is a live session of u that descends from a login noted before position k of the history. */
  ghost predicate OldSession(s: State, u: UserId, k: nat, t: Token) {
    t in s.tokens && s.tokens[t].userId == u && LoginIndex(s.log, t) < k
  }

  /**
   * logoutAll(u) ends every session begun before it exactly when no refresh of u is pending at
   * that moment. If one is, there is a continuation in which an old session lives on.
   */
  lemma RevocationIsCompleteExactlyWithoutPendingRefresh(life: nat, s: State, u: UserId)
    requires Inv(s)
    ensures (exists s', t :: Leads(life, Step(life, s, RevokeAll(u)), s') && OldSession(s', u, |s.log|, t)) <==>
            (exists r :: 0 <= r < |s.requests| && PendingFor(s, s.requests[r], u))
  {
    var cut := Step(life, s, RevokeAll(u));
    StepKeepsInv(life, s, RevokeAll(u));
    if r: nat :| r < |s.requests| && PendingFor(s, s.requests[r], u) {
      LeadsNowhere(life, cut);
      assert PendingFor(cut, cut.requests[r], u);
      var s', e := PendingRefreshCompletes(life, cut, cut, r, u);
      LoginIndexAppended(cut.log, e, e.token);
      LoginIndexWithin(cut.log, e.from);
      assert OldSession(s', u, |s.log|, e.token);
    } else {
      assert forall r :: 0 <= r < |cut.requests| ==> !PendingFor(s, s.requests[r], u) && !PendingFor(cut, cut.requests[r], u);
      assert CutAt(cut, u, |s.log|);
      forall s', t | Leads(life, cut, s') ensures !OldSession(s', u, |s.log|, t) {
        var actions :| RunsTo(life, cut, actions, s');
        RunKeepsCut(life, cut, actions, u, |s.log|);
      }
    }
  }

  // ---- which requests start a session for a user who is not active -------------------------

  function SessionsOf(s: State, u: UserId): set<Token> {
    set t | t in s.tokens && s.tokens[t].userId == u
  }

  /** u is never ACTIVE along the way, and the service's login is not called anew for u. */
  ghost predicate StaysBarred(life: nat, s: State, actions: seq<Action>, u: UserId) {
    && Spawn(LoginReq(u)) !in actions
    && forall n :: 0 <= n <= |actions| ==> !Active(Run(life, s, actions[..n]).db, u)
  }

  ghost predicate GainsSession(life: nat, s: State, actions: seq<Action>, u: UserId) {
    Admissible(life, s, actions) && StaysBarred(life, s, actions, u)
    && !(SessionsOf(Run(life, s, actions), u) <= SessionsOf(s, u))
  }

  ghost predicate NonePending(s: State, u: UserId) {
    forall r :: 0 <= r < |s.requests| ==> !Pending(s, s.requests[r], u)
  }

  /** A request that is not pending for a user who is not ACTIVE does not become so, and saves no session of that user. */
  lemma NotPendingAdvances(life: nat, s: State, a: Action, u: UserId)
    requires a.Advance? && a.r < |s.requests| && !Pending(s, s.requests[a.r], u) && u in s.db && !Active(s.db, u)
    ensures var s' := Step(life, s, a);
            OneMoved(s, s', a.r) && !Pending(s', s'.requests[a.r], u) && SessionsOf(s', u) <= SessionsOf(s, u)
  {}

  lemma NonePendingStays(life: nat, s: State, a: Action, u: UserId)
    requires u in s.db && !Active(s.db, u) && NonePending(s, u) && a != Spawn(LoginReq(u))
    ensures NonePending(Step(life, s, a), u) && u in Step(life, s, a).db
    ensures SessionsOf(Step(life, s, a), u) <= SessionsOf(s, u)
  {
    hide LookUp, Check, TakeOut, Mint, Save;
    if a.Advance? && a.r < |s.requests| {
      NotPendingAdvances(life, s, a, u);
      hide Step, Active, SessionsOf;
      var s' := Step(life, s, a);
      forall i | 0 <= i < |s.requests| ensures !Pending(s', s'.requests[i], u) {
        if i != a.r { assert s'.requests[i] == s.requests[i]; }
      }
    }
  }

  lemma {:induction false} NonePendingAlong(life: nat, s: State, actions: seq<Action>, u: UserId)
    requires u in s.db && NonePending(s, u) && StaysBarred(life, s, actions, u)
    ensures var s' := Run(life, s, actions);
            NonePending(s', u) && u in s'.db && SessionsOf(s', u) <= SessionsOf(s, u)
  {
    hide Step, NonePending, SessionsOf, Active;
    if actions != [] {
      var init := actions[..|actions| - 1];
      assert forall n :: 0 <= n <= |init| ==> init[..n] == actions[..n];
      NonePendingAlong(life, s, init, u);
      assert actions[..|init|] == init;
      NonePendingStays(life, Run(life, s, init), actions[|actions| - 1], u);
    }
  }

  lemma {:induction false} AdvancesKeepUsers(life: nat, s: State, actions: seq<Action>)
    requires forall a :: a in actions ==> a.Advance?
    ensures forall n :: 0 <= n <= |actions| ==> Run(life, s, actions[..n]).db == s.db
  {
    if actions != [] {
      var init, a := actions[..|actions| - 1], actions[|actions| - 1];
      AdvancesKeepUsers(life, s, init);
      assert init[..|init|] == init && actions[..|actions|] == actions;
      assert forall n :: 0 <= n <= |init| ==> init[..n] == actions[..n];
      if a.r < |Run(life, s, init).requests| { AdvanceChangesOne(life, Run(life, s, init), a); }
    }
  }

  /**
   * Once a user is not ACTIVE, and for as long as that lasts, a new session of that user can come
   * about exactly if at that moment a refresh is past its status check, or a login past
   * validateUser or made without it.
   */
  lemma BarredUserGainsSessionExactly(life: nat, s: State, u: UserId)
    requires Inv(s) && u in s.db && !Active(s.db, u)
    ensures (exists actions :: GainsSession(life, s, actions, u)) <==>
            (exists r :: 0 <= r < |s.requests| && Pending(s, s.requests[r], u))
  {
    hide Origin, Sane, RequestOk, Pending, Run, Admissible;
    if r: nat :| r < |s.requests| && Pending(s, s.requests[r], u) {
      EmptyRun(life, s);
      var s', e := PendingCompletes(life, s, s, r, u);
      var actions :| RunsTo(life, s, actions, s') && forall a: Action :: a in actions ==> a.Advance?;
      AdvancesKeepUsers(life, s, actions);
      assert e.token in SessionsOf(s', u) && e.token !in SessionsOf(s, u);
      assert GainsSession(life, s, actions, u);
    } else {
      forall actions | Admissible(life, s, actions) && StaysBarred(life, s, actions, u)
        ensures !GainsSession(life, s, actions, u)
      {
        NonePendingAlong(life, s, actions, u);
      }
    }
  }

  // ---- a request without interference is the whole call ------------------------------------

  function Advanced(life: nat, s: State, a: Action, n: nat): State
    decreases n
  {
    if n == 0 then s else Advanced(life, Step(life, s, a), a, n - 1)
  }

  lemma {:induction false} FinishedStays(life: nat, s: State, a: Action, n: nat)
    requires a.Advance? && a.r < |s.requests| && s.requests[a.r].stage.Finished?
    ensures Advanced(life, s, a, n) == s
    decreases n
  {
    if n > 0 { FinishedStays(life, s, a, n - 1); }
  }

  lemma AdvancedOnce(life: nat, s: State, a: Action, n: nat)
    requires n > 0
    ensures Advanced(life, s, a, n) == Advanced(life, Step(life, s, a), a, n - 1)
  {}

  /** What a request answers, told as the result of a call. */
  function Answer(r: Result<Token, AuthError>): Stage {
    Finished(if r.Ok? then Some(r.value) else None)
  }

  /** The last three steps of a rotation are the removal and the issue of generateRefreshToken. */
  lemma UninterruptedRotation(life: nat, s: State, a: Action)
    requires a.Advance? && a.r < |s.requests| && s.requests[a.r].stage.Removing? && s.requests[a.r].stage.next == ROTATE
    ensures var row := s.requests[a.r].stage.row;
            var issued := IssueCall(s.db, s.tokens - {row.token}, life, s.now, row.userId, a.random);
            var end := Advanced(life, s, a, 3);
            end.tokens == issued.0 && a.r < |end.requests| && end.requests[a.r].stage == Answer(issued.1)
  {
    hide Advanced;
    var taken := Step(life, s, a);
    var minted := Step(life, taken, a);
    AdvancedOnce(life, s, a, 3);
    AdvancedOnce(life, taken, a, 2);
    AdvancedOnce(life, minted, a, 1);
    FinishedStays(life, Step(life, minted, a), a, 0);
  }

  /** The four steps that follow a lookup. */
  lemma UninterruptedAfterLookUp(life: nat, s: State, a: Action, t: Token)
    requires a.Advance? && a.r < |s.requests| && t in s.tokens && s.tokens[t].token == t
    requires var user := s.tokens[t].userId;
             s.requests[a.r].stage == Holding(s.tokens[t], if Live(s.db, user) then Some(s.db[user].status) else None)
    ensures var whole := RefreshCall(s.db, s.tokens, life, s.now, t, a.random);
            var end := Advanced(life, s, a, 4);
            end.tokens == whole.0 && a.r < |end.requests| && end.requests[a.r].stage == Answer(whole.1)
  {
    hide Advanced, IssueCall;
    var checked := Step(life, s, a);
    AdvancedOnce(life, s, a, 4);
    if s.tokens[t].IsExpired(s.now) {
      AdvancedOnce(life, checked, a, 3);
      FinishedStays(life, Step(life, checked, a), a, 2);
    } else if s.requests[a.r].stage.owner != Some(ACTIVE) {
      FinishedStays(life, checked, a, 3);
    } else {
      UninterruptedRotation(life, checked, a);
    }
  }

  /** The five steps of a refresh, taken one after the other, do and answer what the whole call does. */
  lemma UninterruptedRefreshIsTheCall(life: nat, s: State, a: Action, t: Token)
    requires Inv(s) && a.Advance? && a.r < |s.requests| && s.requests[a.r] == Request(RefreshReq(t), Begun)
    ensures var whole := RefreshCall(s.db, s.tokens, life, s.now, t, a.random);
            var end := Advanced(life, s, a, 5);
            end.tokens == whole.0 && a.r < |end.requests| && end.requests[a.r].stage == Answer(whole.1)
  {
    hide Advanced;
    var found := Step(life, s, a);
    AdvancedOnce(life, s, a, 5);
    if t in s.tokens { UninterruptedAfterLookUp(life, found, a, t); }
    else { FinishedStays(life, found, a, 4); }
  }

  /** The two steps of a logout. */
  lemma UninterruptedLogoutIsTheCall(life: nat, s: State, a: Action, t: Token)
    requires Inv(s) && a.Advance? && a.r < |s.requests| && s.requests[a.r] == Request(LogoutReq(t), Begun)
    ensures var end := Advanced(life, s, a, 2);
            end.tokens == s.tokens - {t} && a.r < |end.requests| && end.requests[a.r].stage == Finished(None)
  {
    assert t in s.tokens ==> s.tokens[t].token == t;
    hide Inv, Advanced;
    var found := Step(life, s, a);
    AdvancedOnce(life, s, a, 2);
    AdvancedOnce(life, found, a, 1);
    FinishedStays(life, Step(life, found, a), a, 0);
  }

  /** The last two steps of a login are the issue of generateRefreshToken. */
  lemma UninterruptedIssue(life: nat, s: State, a: Action)
    requires a.Advance? && a.r < |s.requests| && s.requests[a.r].stage.Minting?
    ensures var whole := IssueCall(s.db, s.tokens, life, s.now, s.requests[a.r].stage.user, a.random);
            var end := Advanced(life, s, a, 2);
            end.tokens == whole.0 && a.r < |end.requests| && end.requests[a.r].stage == Answer(whole.1)
  {
    hide Advanced;
    var minted := Step(life, s, a);
    AdvancedOnce(life, s, a, 2);
    AdvancedOnce(life, minted, a, 1);
    FinishedStays(life, Step(life, minted, a), a, 0);
  }

  /** The three steps of a login without credentials. */
  lemma UninterruptedLoginIsTheCall(life: nat, s: State, a: Action, u: UserId)
    requires a.Advance? && a.r < |s.requests| && s.requests[a.r] == Request(LoginReq(u), Begun)
    ensures var whole := IssueCall(s.db, s.tokens, life, s.now, u, a.random);
            var end := Advanced(life, s, a, 3);
            end.tokens == whole.0 && a.r < |end.requests| && end.requests[a.r].stage == Answer(whole.1)
  {
    hide Advanced, IssueCall;
    AdvancedOnce(life, s, a, 3);
    UninterruptedIssue(life, Step(life, s, a), a);
  }

  /** Some user has the email, and the password opens what is stored. */
  predicate Credentials(bc: Bcrypt, db: Table, u: UserId, email: string, password: string) {
    && Live(db, u) && db[u].email == email
    && db[u].password.Some? && db[u].password.value != "" && bc.compare(password, db[u].password.value)
  }

  lemma CredentialsDecide(bc: Bcrypt, db: Table, u: UserId, email: string, password: string)
    requires DistinctEmails(db) && Credentials(bc, db, u, email, password)
    ensures ValidateCall(bc, db, email, password) == if db[u].status == ACTIVE then Ok(u) else Err(NotActive)
  {
    assert LiveEmail(db, email);
  }

  /** The three steps of a sign-in with a user's own credentials. */
  lemma UninterruptedSignInIsTheCall(bc: Bcrypt, life: nat, s: State, a: Action, u: UserId, email: string, password: string)
    requires DistinctEmails(s.db) && Credentials(bc, s.db, u, email, password)
    requires a.Advance? && a.r < |s.requests| && s.requests[a.r] == Request(SignInReq(u), Begun)
    ensures var whole := SignInCall(bc, s.db, s.tokens, life, s.now, email, password, a.random);
            var end := Advanced(life, s, a, 3);
            end.tokens == whole.0 && a.r < |end.requests| && end.requests[a.r].stage == Answer(whole.1)
  {
    CredentialsDecide(bc, s.db, u, email, password);
    hide Advanced, IssueCall, ValidateCall;
    var checked := Step(life, s, a);
    AdvancedOnce(life, s, a, 3);
    if Active(s.db, u) { UninterruptedIssue(life, checked, a); }
    else { FinishedStays(life, checked, a, 2); }
  }
}
