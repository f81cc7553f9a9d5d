/**
 * Refresh-token sessions: src/modules/auth/auth.service.ts and the token row of
 * src/modules/auth/entities/user-refresh-token.entity.ts. The functions say what one whole call
 * does to the token table and what it answers; the class is the code, proved to do that.
 */
module Sessions {
  import opened Prelude
  import opened Users
  import opened SessionLog

  /** A row of user_refresh_tokens; times are in milliseconds. */
  datatype TokenRow = TokenRow(token: Token, userId: UserId, expiresAt: int) {
    predicate IsExpired(now: int) {
      now > expiresAt
    }
  }

  type Tokens = map<Token, TokenRow>

  datatype AuthError = InvalidToken | TokenExpired | AccountNotActive | NoUser | SaveFailed | Rejected(reason: Users.Error)

  // ---- durations ---------------------------------------------------------------------------

  predicate IsDigit(c: char) {
    '0' <= c <= '9'
  }

  function DigitsValue(s: string): nat
    requires forall i :: 0 <= i < |s| ==> IsDigit(s[i])
  {
    if s == [] then 0
    else
      var last := s[|s| - 1];
      assert IsDigit(last);
      10 * DigitsValue(s[..|s| - 1]) + (last as int - '0' as int)
  }

  function UnitSeconds(unit: char): Option<nat> {
    match unit
    case 's' => Some(1)
    case 'm' => Some(60)
    case 'h' => Some(3600)
    case 'd' => Some(86400)
    case 'w' => Some(604800)
    case _ => None
  }

  /** Digits and the letter of a unit. */
  predicate Readable(s: string) {
    |s| >= 2 && (forall i :: 0 <= i < |s| - 1 ==> IsDigit(s[i])) && UnitSeconds(s[|s| - 1]).Some?
  }

  /** Seconds meant by a text such as 7d; one hour for any text of another form. */
  function ParseExpirationTime(s: string): nat {
    if Readable(s)
    then DigitsValue(s[..|s| - 1]) * UnitSeconds(s[|s| - 1]).value
    else 3600
  }

  function Decimal(n: nat): (s: string)
    ensures s != [] && forall i :: 0 <= i < |s| ==> IsDigit(s[i])
  {
    var digit := ('0' as int + n % 10) as char;
    if n < 10 then [digit] else Decimal(n / 10) + [digit]
  }

  lemma {:induction false} DigitsOfDecimal(n: nat)
    ensures DigitsValue(Decimal(n)) == n
  {
    var s := Decimal(n);
    if n >= 10 {
      DigitsOfDecimal(n / 10);
      assert s[..|s| - 1] == Decimal(n / 10);
    } else {
      assert s[..0] == [];
    }
  }

  function Zeros(k: nat): seq<char> {
    seq(k, _ => '0')
  }

  lemma {:induction false} DigitsAfterZeros(k: nat, digits: string)
    requires forall i :: 0 <= i < |digits| ==> IsDigit(digits[i])
    ensures forall i :: 0 <= i < |Zeros(k) + digits| ==> IsDigit((Zeros(k) + digits)[i])
    ensures DigitsValue(Zeros(k) + digits) == DigitsValue(digits)
    decreases k + |digits|
  {
    var s := Zeros(k) + digits;
    if digits != [] {
      DigitsAfterZeros(k, digits[..|digits| - 1]);
      assert s[..|s| - 1] == Zeros(k) + digits[..|digits| - 1];
    } else if k > 0 {
      DigitsAfterZeros(k - 1, []);
      assert s[..|s| - 1] == Zeros(k - 1) + [];
    }
  }

  /** Every text of digits is some zeros and the decimal form of a number. */
  lemma {:induction false} DigitsAreDecimal(s: string) returns (k: nat, n: nat)
    requires s != [] && forall i :: 0 <= i < |s| ==> IsDigit(s[i])
    ensures s == Zeros(k) + Decimal(n)
  {
    var init, digit := s[..|s| - 1], s[|s| - 1] as int - '0' as int;
    assert IsDigit(s[|s| - 1]);
    if init == [] {
      k, n := 0, digit;
    } else {
      k, n := DigitsAreDecimal(init);
      assert s == init + [s[|s| - 1]];
      if n == 0 {
        assert init == Zeros(k + 1);
        k, n := k + 1, digit;
      } else {
        n := 10 * n + digit;
      }
    }
  }

  /** Some count, perhaps after zeros, and then a unit. */
  ghost predicate IsCount(s: string, k: nat, n: nat, unit: string) {
    s == Zeros(k) + Decimal(n) + unit
  }

  /** What a text such as 7d means, for each of the five units. */
  lemma CountIsRead(s: string, k: nat, n: nat, unit: char)
    requires IsCount(s, k, n, [unit]) && UnitSeconds(unit).Some?
    ensures ParseExpirationTime(s) == n * UnitSeconds(unit).value
  {
    DigitsAfterZeros(k, Decimal(n));
    DigitsOfDecimal(n);
    var digits := Zeros(k) + Decimal(n);
    hide DigitsValue, Decimal, UnitSeconds;
    assert s[..|s| - 1] == digits && s[|s| - 1] == unit;
    assert forall i :: 0 <= i < |s| - 1 ==> s[i] == digits[i];
  }

  lemma ReadableIsCount(s: string) returns (k: nat, n: nat)
    requires Readable(s)
    ensures IsCount(s, k, n, [s[|s| - 1]]) && s[|s| - 1] in "smhdw"
  {
    k, n := DigitsAreDecimal(s[..|s| - 1]);
    assert s[|s| - 1] in "smhdw";
    hide DigitsValue, Decimal, UnitSeconds, Zeros;
    assert s == s[..|s| - 1] + [s[|s| - 1]];
  }

  lemma CountOfUnit(n: nat, unit: string)
    requires unit in {"s", "m", "h", "d", "w"}
    ensures ParseExpirationTime(Decimal(n) + unit) == n *
              match unit[0]
              case 's' => 1
              case 'm' => 60
              case 'h' => 3600
              case 'd' => 86400
              case _ => 604800
  {
    assert IsCount(Decimal(n) + unit, 0, n, [unit[0]]) by { assert Zeros(0) + Decimal(n) + [unit[0]] == Decimal(n) + unit; }
    CountIsRead(Decimal(n) + unit, 0, n, unit[0]);
  }

  /** Exactly the texts of a count and one of five units are read, as that many units; all others mean one hour. */
  lemma DurationsAreReadBack(s: string)
    ensures forall k: nat, n: nat :: IsCount(s, k, n, "s") ==> ParseExpirationTime(s) == n
    ensures forall k: nat, n: nat :: IsCount(s, k, n, "m") ==> ParseExpirationTime(s) == n * 60
    ensures forall k: nat, n: nat :: IsCount(s, k, n, "h") ==> ParseExpirationTime(s) == n * 3600
    ensures forall k: nat, n: nat :: IsCount(s, k, n, "d") ==> ParseExpirationTime(s) == n * 86400
    ensures forall k: nat, n: nat :: IsCount(s, k, n, "w") ==> ParseExpirationTime(s) == n * 604800
    ensures (forall k: nat, n: nat, unit :: unit in {"s", "m", "h", "d", "w"} ==> !IsCount(s, k, n, unit)) ==>
              ParseExpirationTime(s) == 3600
  {
    hide DigitsValue, Decimal, Zeros;
    forall k: nat, n: nat, unit | IsCount(s, k, n, [unit]) && UnitSeconds(unit).Some?
      ensures ParseExpirationTime(s) == n * UnitSeconds(unit).value
    {
      CountIsRead(s, k, n, unit);
    }
    if Readable(s) { var k, n := ReadableIsCount(s); }
  }

  /** Counts are decimal; two of these are the defaults of the configuration. */
  lemma SomeDurations()
    ensures ParseExpirationTime("7d") == 604800 && ParseExpirationTime("1h") == 3600 && ParseExpirationTime("015m") == 900
  {
    assert DigitsValue("7") == 7 by { assert "7"[..0] == ""; }
    assert DigitsValue("1") == 1 by { assert "1"[..0] == ""; }
    assert DigitsValue("0") == 0 by { assert "0"[..0] == ""; }
    assert DigitsValue("01") == 1 by { assert "01"[..1] == "0"; }
    assert DigitsValue("015") == 15 by { assert "015"[..2] == "01"; }
    hide DigitsValue;
    assert "7d"[..1] == "7" && "1h"[..1] == "1" && "015m"[..3] == "015";
  }

  // ---- what whole calls do -----------------------------------------------------------------

  /**
   * generateRefreshToken: a row for the random token. The insert is refused if the token is
   * taken or the user has no row to refer to.
   */
  function IssueCall(db: Table, tokens: Tokens, life: nat, now: int, user: UserId, random: Token): (Tokens, Result<Token, AuthError>) {
    if user !in db || random in tokens then (tokens, Err(SaveFailed))
    else (tokens[random := TokenRow(random, user, now + life)], Ok(random))
  }

  function RefreshCall(db: Table, tokens: Tokens, life: nat, now: int, token: Token, random: Token): (Tokens, Result<Token, AuthError>) {
    if token !in tokens then (tokens, Err(InvalidToken))
    else
      var row := tokens[token];
      if row.IsExpired(now) then (tokens - {token}, Err(TokenExpired))
      else if !Live(db, row.userId) then (tokens, Err(NoUser))
      else if db[row.userId].status != ACTIVE then (tokens, Err(AccountNotActive))
      else IssueCall(db, tokens - {token}, life, now, row.userId, random)
  }

  function LogoutCall(tokens: Tokens, token: Token): Tokens {
    tokens - {token}
  }

  function LogoutAllCall(tokens: Tokens, user: UserId): Tokens {
    map t | t in tokens && tokens[t].userId != user :: tokens[t]
  }

  /** The login request: the credentials are checked, then a session starts. */
  ghost function SignInCall(bc: Bcrypt, db: Table, tokens: Tokens, life: nat, now: int, email: string, password: string, random: Token)
    : (Tokens, Result<Token, AuthError>)
  {
    match ValidateCall(bc, db, email, password)
    case Err(e) => (tokens, Err(Rejected(e)))
    case Ok(user) => IssueCall(db, tokens, life, now, user, random)
  }

  // ---- the code ----------------------------------------------------------------------------

  datatype LoginResponse = LoginResponse(user: UserId, refreshToken: Token, expiresIn: nat)

  function Tokened(r: Result<LoginResponse, AuthError>): Result<Token, AuthError> {
    match r
    case Ok(response) => Ok(response.refreshToken)
    case Err(e) => Err(e)
  }

  class AuthService {
    const users: UsersRepository
    const bcrypt: Bcrypt
    const jwtExpiresIn: string
    const refreshTokenExpiresIn: string
    var tokens: Tokens

    constructor (users: UsersRepository, bcrypt: Bcrypt, jwtExpiresIn: string, refreshTokenExpiresIn: string)
      ensures this.users == users && this.bcrypt == bcrypt
      ensures this.jwtExpiresIn == jwtExpiresIn && this.refreshTokenExpiresIn == refreshTokenExpiresIn
      ensures tokens == map[]
    {
      this.users, this.bcrypt := users, bcrypt;
      this.jwtExpiresIn, this.refreshTokenExpiresIn := jwtExpiresIn, refreshTokenExpiresIn;
      tokens := map[];
    }

    function Life(): nat {
      ParseExpirationTime(refreshTokenExpiresIn) * 1000
    }

    method GenerateRefreshToken(user: UserId, now: int, random: Token) returns (r: Result<Token, AuthError>)
      modifies this
      ensures (tokens, r) == IssueCall(users.rows, old(tokens), Life(), now, user, random)
      ensures r == if user in users.rows && random !in old(tokens) then Ok(random) else Err(SaveFailed)
      ensures tokens == if r.Err? then old(tokens)
                        else old(tokens)[random := TokenRow(random, user, now + 1000 * ParseExpirationTime(refreshTokenExpiresIn))]
      ensures forall days: nat :: r.Ok? && refreshTokenExpiresIn == Decimal(days) + "d" ==>
                tokens[random].expiresAt == now + days * 86400000
    {
      forall days: nat | refreshTokenExpiresIn == Decimal(days) + "d"
        ensures ParseExpirationTime(refreshTokenExpiresIn) == days * 86400
      {
        CountOfUnit(days, "d");
      }
      hide ParseExpirationTime, Decimal;
      var expiresAt := now + ParseExpirationTime(refreshTokenExpiresIn) * 1000;
      var entity := TokenRow(random, user, expiresAt);
      if user !in users.rows || random in tokens {
        return Err(SaveFailed);
      }
      tokens := tokens[random := entity];
      return Ok(random);
    }

    method Login(user: UserId, now: int, random: Token) returns (r: Result<LoginResponse, AuthError>)
      modifies this
      ensures (tokens, Tokened(r)) == IssueCall(users.rows, old(tokens), Life(), now, user, random)
      ensures r.Ok? ==> r.value == LoginResponse(user, random, ParseExpirationTime(jwtExpiresIn))
      ensures forall hours: nat :: r.Ok? && jwtExpiresIn == Decimal(hours) + "h" ==> r.value.expiresIn == hours * 3600
    {
      forall hours: nat | jwtExpiresIn == Decimal(hours) + "h" ensures ParseExpirationTime(jwtExpiresIn) == hours * 3600 {
        CountOfUnit(hours, "h");
      }
      hide ParseExpirationTime, Decimal;
      var issued := GenerateRefreshToken(user, now, random);
      match issued
      case Err(e) => return Err(e);
      case Ok(refreshToken) => return Ok(LoginResponse(user, refreshToken, ParseExpirationTime(jwtExpiresIn)));
    }

    method RefreshToken(token: Token, now: int, random: Token) returns (r: Result<LoginResponse, AuthError>)
      modifies this
      ensures (tokens, Tokened(r)) == RefreshCall(users.rows, old(tokens), Life(), now, token, random)
      ensures r.Ok? ==> token in old(tokens) && r.value == LoginResponse(old(tokens)[token].userId, random, ParseExpirationTime(jwtExpiresIn))
      ensures forall hours: nat :: r.Ok? && jwtExpiresIn == Decimal(hours) + "h" ==> r.value.expiresIn == hours * 3600
      ensures r == Err(InvalidToken) <==> token !in old(tokens)
      ensures token in old(tokens) ==>
                var row := old(tokens)[token];
                && (r == Err(TokenExpired) <==> now > row.expiresAt)
                && (r == Err(NoUser) <==> now <= row.expiresAt && !Live(users.rows, row.userId))
                && (r == Err(AccountNotActive) <==>
                      now <= row.expiresAt && Live(users.rows, row.userId) && users.rows[row.userId].status != ACTIVE)
                && (r == Err(TokenExpired) ==> tokens == old(tokens) - {token})
                && (r == Err(NoUser) || r == Err(AccountNotActive) ==> tokens == old(tokens))
                && (r.Ok? ==> tokens == (old(tokens) - {token})[random :=
                      TokenRow(random, row.userId, now + 1000 * ParseExpirationTime(refreshTokenExpiresIn))])
    {
      hide ParseExpirationTime, Decimal;
      if token !in tokens {
        return Err(InvalidToken);
      }
      var entity := tokens[token];
      var user := users.FindOneById(entity.userId);
      if entity.IsExpired(now) {
        tokens := tokens - {token};
        return Err(TokenExpired);
      }
      if user.None? {
        return Err(NoUser);
      }
      if user.value.status != ACTIVE {
        return Err(AccountNotActive);
      }
      tokens := tokens - {token};
      r := Login(user.value.id, now, random);
    }

    method Logout(refreshToken: Token)
      modifies this
      ensures tokens == LogoutCall(old(tokens), refreshToken)
      ensures tokens == old(tokens) - {refreshToken}
    {
      if refreshToken !in tokens {
        return;
      }
      tokens := tokens - {refreshToken};
    }

    method LogoutAll(userId: UserId)
      modifies this
      ensures tokens == LogoutAllCall(old(tokens), userId)
      ensures forall t :: t in tokens <==> t in old(tokens) && old(tokens)[t].userId != userId
      ensures forall t :: t in tokens ==> tokens[t] == old(tokens)[t]
    {
      tokens := map t | t in tokens && tokens[t].userId != userId :: tokens[t];
    }

    /** AuthController.login. */
    method SignIn(email: string, password: string, now: int, random: Token) returns (r: Result<LoginResponse, AuthError>)
      requires users.Valid()
      modifies this
      ensures (tokens, Tokened(r)) == SignInCall(bcrypt, users.rows, old(tokens), Life(), now, email, password, random)
      ensures r.Ok? ==>
                && ValidateCall(bcrypt, users.rows, email, password) == Ok(r.value.user)
                && r.value == LoginResponse(r.value.user, random, ParseExpirationTime(jwtExpiresIn))
                && tokens == old(tokens)[random :=
                     TokenRow(random, r.value.user, now + 1000 * ParseExpirationTime(refreshTokenExpiresIn))]
      ensures forall hours: nat :: r.Ok? && jwtExpiresIn == Decimal(hours) + "h" ==> r.value.expiresIn == hours * 3600
      ensures r.Err? ==> tokens == old(tokens)
      ensures ValidateCall(bcrypt, users.rows, email, password).Err? ==>
                r == Err(Rejected(ValidateCall(bcrypt, users.rows, email, password).error))
    {
      hide ParseExpirationTime, Decimal, ValidateCall;
      var user := ValidateUser(users, bcrypt, email, password);
      match user
      case Err(e) => return Err(Rejected(e));
      case Ok(id) => r := Login(id, now, random);
    }
  }
}
