/**
 * The history of refresh tokens, as the sequence of what happened to them, and what follows for
 * every history that is put together the way AuthService does it. SessionRuns and
 * SessionInterleaving show which histories the code produces.
 */
module SessionLog {
  import opened Prelude
  import opened Users

  type Token = string

  datatype Reason = LOGOUT | EXPIRED | SAVE_FAILED

  datatype Event =
    | LoggedIn(user: UserId, token: Token, at: int)
    | Rotated(user: UserId, from: Token, token: Token, at: int)
    | Dropped(token: Token, reason: Reason)
    | RevokedAll(user: UserId)
    | Hit(request: nat, token: Token)  // a refresh request has found the token's row
    | Quiet                            // nothing happened to any token

  type Log = seq<Event>

  function Init(log: Log): Log
    requires log != []
  {
    log[..|log| - 1]
  }

  function Last(log: Log): Event
    requires log != []
  {
    log[|log| - 1]
  }

  lemma Appended(log: Log, e: Event)
    ensures Init(log + [e]) == log && Last(log + [e]) == e
  {}

  predicate Issues(e: Event, t: Token) {
    (e.LoggedIn? || e.Rotated?) && e.token == t
  }

  /** The event that issued a token. */
  function Origin(log: Log, t: Token): (e: Option<Event>)
    ensures e.Some? ==> Issues(e.value, t)
  {
    if log == [] then None
    else if Issues(Last(log), t) then Some(Last(log))
    else Origin(Init(log), t)
  }

  lemma OriginAppended(log: Log, e: Event)
    ensures forall t :: Origin(log + [e], t) == if Issues(e, t) then Some(e) else Origin(log, t)
  {
    Appended(log, e);
  }

  predicate OwnedBy(log: Log, t: Token, u: UserId) {
    Origin(log, t).Some? && Origin(log, t).value.user == u
  }

  /** A token is issued once, and a rotation starts from a token issued to the same user. */
  ghost predicate Sane(log: Log) {
    log == [] || (Sane(Init(log)) && SaneNext(Init(log), Last(log)))
  }

  ghost predicate SaneNext(log: Log, e: Event) {
    match e
    case LoggedIn(_, t, _) => Origin(log, t).None?
    case Rotated(u, from, t, _) => Origin(log, t).None? && OwnedBy(log, from, u)
    case _ => true
  }

  // ---- lineage -----------------------------------------------------------------------------

  /** The tokens from the login to t, each rotated into the next. */
  function Chain(log: Log, t: Token): seq<Token> {
    if log == [] then []
    else if !Issues(Last(log), t) then Chain(Init(log), t)
    else if Last(log).LoggedIn? then [t]
    else Chain(Init(log), Last(log).from) + [t]
  }

  /** Where in the history the login stands from which t descends. */
  function LoginIndex(log: Log, t: Token): nat {
    if log == [] then 0
    else if !Issues(Last(log), t) then LoginIndex(Init(log), t)
    else if Last(log).LoggedIn? then |log| - 1
    else LoginIndex(Init(log), Last(log).from)
  }

  ghost predicate LoginOf(log: Log, t: Token) {
    exists e :: e in log && e.LoggedIn? && e.token == t
  }

  ghost predicate RotationOf(log: Log, from: Token, t: Token) {
    exists e :: e in log && e.Rotated? && e.from == from && e.token == t
  }

  ghost predicate IsChain(log: Log, ts: seq<Token>, t: Token) {
    && ts != [] && ts[|ts| - 1] == t && LoginOf(log, ts[0])
    && forall i :: 0 <= i < |ts| - 1 ==> RotationOf(log, ts[i], ts[i + 1])
  }

  lemma {:induction false} TheOnlyOrigin(log: Log, e: Event, t: Token)
    requires Sane(log) && e in log && Issues(e, t)
    ensures Origin(log, t) == Some(e)
  {
    if e != Last(log) {
      assert e in Init(log);
      TheOnlyOrigin(Init(log), e, t);
    }
  }

  /** The chain of a token is read off its origin, whatever has been appended since. */
  lemma {:induction false} ChainFromOrigin(log: Log, t: Token)
    requires Sane(log) && Origin(log, t).Some?
    ensures Origin(log, t).value in log
    ensures Origin(log, t).value.LoggedIn? ==> Chain(log, t) == [t]
    ensures Origin(log, t).value.Rotated? ==>
              var from := Origin(log, t).value.from;
              OwnedBy(log, from, Origin(log, t).value.user) && Chain(log, t) == Chain(log, from) + [t]
  {
    if !Issues(Last(log), t) {
      ChainFromOrigin(Init(log), t);
    }
  }

  /** Any chain is the chain: by its last link, which its last token's origin determines. */
  lemma {:induction false} ChainsAreUnique(log: Log, ts: seq<Token>, t: Token)
    requires Sane(log) && IsChain(log, ts, t)
    ensures ts == Chain(log, t)
    decreases |ts|
  {
    var n := |ts|;
    if n == 1 {
      var e :| e in log && e.LoggedIn? && e.token == t;
      TheOnlyOrigin(log, e, t);
      ChainFromOrigin(log, t);
    } else {
      assert RotationOf(log, ts[n - 2], ts[n - 1]);
      var e :| e in log && e.Rotated? && e.from == ts[n - 2] && e.token == t;
      TheOnlyOrigin(log, e, t);
      ChainFromOrigin(log, t);
      ChainsAreUnique(log, ts[..n - 1], ts[n - 2]);
      assert ts == ts[..n - 1] + [t];
    }
  }

  lemma ChainSurvivesAppending(log: Log, ts: seq<Token>, t: Token)
    requires log != [] && IsChain(Init(log), ts, t)
    ensures IsChain(log, ts, t)
  {
    forall i | 0 <= i < |ts| - 1 ensures RotationOf(log, ts[i], ts[i + 1]) {
      assert RotationOf(Init(log), ts[i], ts[i + 1]);
    }
  }

  lemma {:induction false} ChainExists(log: Log, t: Token)
    requires Sane(log) && Origin(log, t).Some?
    ensures IsChain(log, Chain(log, t), t)
    ensures forall x :: x in Chain(log, t) ==> OwnedBy(log, x, Origin(log, t).value.user)
  {
    var e, init := Last(log), Init(log);
    if !Issues(e, t) {
      ChainExists(init, t);
      ChainSurvivesAppending(log, Chain(init, t), t);
    } else if e.Rotated? {
      ChainExists(init, e.from);
      var ts := Chain(init, e.from);
      ChainSurvivesAppending(log, ts, e.from);
      assert RotationOf(log, e.from, t);
      forall i | 0 <= i < |ts + [t]| - 1 ensures RotationOf(log, (ts + [t])[i], (ts + [t])[i + 1]) {
        if i < |ts| - 1 { assert RotationOf(log, ts[i], ts[i + 1]); }
      }
    }
  }

  /** Every issued token has exactly one rotation chain back to a login, and one user owns all of it. */
  lemma EveryTokenHasOneChain(log: Log, t: Token)
    requires Sane(log) && Origin(log, t).Some?
    ensures IsChain(log, Chain(log, t), t)
    ensures forall ts :: IsChain(log, ts, t) ==> ts == Chain(log, t)
    ensures forall x :: x in Chain(log, t) ==> OwnedBy(log, x, Origin(log, t).value.user)
  {
    ChainExists(log, t);
    forall ts | IsChain(log, ts, t) ensures ts == Chain(log, t) {
      ChainsAreUnique(log, ts, t);
    }
  }

  // ---- life and death ----------------------------------------------------------------------

  predicate Kills(log: Log, e: Event, t: Token) {
    match e
    case Rotated(_, from, _, _) => from == t
    case Dropped(x, _) => x == t
    case RevokedAll(u) => OwnedBy(log, t, u)
    case _ => false
  }

  /** Issued, and nothing has ended it since. */
  predicate Alive(log: Log, t: Token) {
    log != [] && (Issues(Last(log), t) || (!Kills(Init(log), Last(log), t) && Alive(Init(log), t)))
  }

  /** Histories of whole calls: only living tokens are rotated or dropped, and rotated within their lifetime. */
  ghost predicate Strict(log: Log, life: nat) {
    log == [] || (Strict(Init(log), life) && StrictNext(Init(log), Last(log), life))
  }

  ghost predicate StrictNext(log: Log, e: Event, life: nat) {
    && SaneNext(log, e)
    && (e.Rotated? ==> Alive(log, e.from) && e.at <= Origin(log, e.from).value.at + life)
    && (e.Dropped? ==> Alive(log, e.token))
  }

  lemma {:induction false} StrictIsSane(log: Log, life: nat)
    requires Strict(log, life)
    ensures Sane(log)
  {
    if log != [] { StrictIsSane(Init(log), life); }
  }

  lemma {:induction false} AliveIsIssued(log: Log, t: Token)
    requires Alive(log, t)
    ensures Origin(log, t).Some?
  {
    if !Issues(Last(log), t) { AliveIsIssued(Init(log), t); }
  }

  /** How often a token has been redeemed for a new one. */
  function Redemptions(log: Log, t: Token): nat {
    if log == [] then 0
    else Redemptions(Init(log), t) + if Last(log).Rotated? && Last(log).from == t then 1 else 0
  }

  /** A token that has ended stays ended, and is not redeemed any more. */
  lemma {:induction false} TheDeadStayDead(log: Log, more: Log, life: nat, t: Token)
    requires Strict(log + more, life) && Origin(log, t).Some? && !Alive(log, t)
    ensures !Alive(log + more, t) && Origin(log + more, t) == Origin(log, t)
    ensures Redemptions(log + more, t) == Redemptions(log, t)
  {
    if more == [] {
      assert log + more == log;
    } else {
      assert Init(log + more) == log + Init(more);
      TheDeadStayDead(log, Init(more), life, t);
    }
  }

  /** In histories of whole calls a token is redeemed at most once, and is dead afterwards. */
  lemma {:induction false} RedeemedAtMostOnce(log: Log, life: nat, t: Token)
    requires Strict(log, life)
    ensures Redemptions(log, t) <= 1
    ensures Redemptions(log, t) == 1 ==> !Alive(log, t) && Origin(log, t).Some?
  {
    if log != [] { RedeemedAtMostOnce(Init(log), life, t); }
  }

  /** Once all sessions of a user are revoked, every living token of that user comes from a later login. */
  lemma {:induction false} RevocationCutsLineage(log: Log, life: nat, k: nat, t: Token)
    requires Strict(log, life) && k < |log| && log[k].RevokedAll?
    requires Alive(log, t) && OwnedBy(log, t, log[k].user)
    ensures LoginIndex(log, t) > k
  {
    var e, init := Last(log), Init(log);
    if k < |log| - 1 {
      if !Issues(e, t) {
        RevocationCutsLineage(init, life, k, t);
      } else if e.Rotated? {
        RevocationCutsLineage(init, life, k, e.from);
      }
    }
  }

  /** Each rotation restarts the lifetime: k rotations span at most k lifetimes. */
  lemma {:induction false} ChainSpan(log: Log, life: nat, t: Token)
    requires Strict(log, life) && Origin(log, t).Some?
    ensures Chain(log, t) != [] && Origin(log, Chain(log, t)[0]).Some?
    ensures Origin(log, t).value.at - Origin(log, Chain(log, t)[0]).value.at <= (|Chain(log, t)| - 1) * life
  {
    var e, init := Last(log), Init(log);
    StrictIsSane(log, life);
    EveryTokenHasOneChain(log, t);
    if !Issues(e, t) {
      ChainSpan(init, life, t);
      OriginIsKept(log, Chain(init, t)[0]);
    } else if e.Rotated? {
      ChainSpan(init, life, e.from);
      OriginIsKept(log, Chain(init, e.from)[0]);
      assert (|Chain(log, t)| - 1) * life == (|Chain(init, e.from)| - 1) * life + life;
    }
  }

  lemma OriginIsKept(log: Log, t: Token)
    requires log != [] && Sane(log) && Origin(Init(log), t).Some?
    ensures Origin(log, t) == Origin(Init(log), t)
  {}

  // ---- counting sessions -------------------------------------------------------------------

  /** Logins of u, minus its tokens dropped one by one, counted from the last time all were revoked. */
  function Balance(log: Log, u: UserId): int {
    if log == [] then 0
    else
      var before := Balance(Init(log), u);
      match Last(log)
      case LoggedIn(x, _, _) => if x == u then before + 1 else before
      case Dropped(t, _) => if OwnedBy(Init(log), t, u) then before - 1 else before
      case RevokedAll(x) => if x == u then 0 else before
      case _ => before
  }

  /** The living tokens of a user. */
  function LiveTokens(log: Log, u: UserId): set<Token> {
    if log == [] then {}
    else
      var before := LiveTokens(Init(log), u);
      match Last(log)
      case LoggedIn(x, t, _) => if x == u then before + {t} else before
      case Rotated(x, from, t, _) => if x == u then before - {from} + {t} else before
      case Dropped(t, _) => before - {t}
      case RevokedAll(x) => if x == u then {} else before
      case _ => before
  }

  lemma {:induction false} SessionsAreTheLiving(log: Log, life: nat, u: UserId)
    requires Strict(log, life)
    ensures forall t :: t in LiveTokens(log, u) <==> Alive(log, t) && OwnedBy(log, t, u)
  {
    if log != [] {
      SessionsAreTheLiving(Init(log), life, u);
    }
  }

  /** Conservation: a user has as many living tokens as the balance of the history says. */
  lemma {:induction false} SessionsAreConserved(log: Log, life: nat, u: UserId)
    requires Strict(log, life)
    ensures |LiveTokens(log, u)| == Balance(log, u)
  {
    if log != [] {
      var init, e := Init(log), Last(log);
      SessionsAreConserved(init, life, u);
      SessionsAreTheLiving(init, life, u);
      if e.LoggedIn? || e.Rotated? {
        assert e.token !in LiveTokens(init, u) by { if Alive(init, e.token) { AliveIsIssued(init, e.token); } }
      }
    }
  }
}
