/** What every run of user operations keeps: distinct emails, and passwords hashed exactly once. */
module UserRuns {
  import opened Prelude
  import opened Users

  datatype Op =
    | Create(newId: UserId, new': CreateUserDto, salt: string)
    | Update(id: UserId, change: UpdateUserDto, salt: string)
    | SetStatus(id: UserId, status: Status, salt: string)
    | Remove(id: UserId)
    | OAuthSignIn(newId: UserId, profile: Profile, salt: string)
    | SeedAdmin(newId: UserId, seedSalt: string, salt: string)

  ghost function Apply(bc: Bcrypt, db: Table, op: Op): (Table, Result<UserId, Error>) {
    match op
    case Create(id, dto, salt) => CreateCall(bc, db, id, dto, salt)
    case Update(id, dto, salt) => UpdateCall(bc, db, id, dto, salt)
    case SetStatus(id, status, salt) => UpdateStatusCall(bc, db, id, status, salt)
    case Remove(id) => RemoveCall(db, id)
    case OAuthSignIn(id, profile, salt) => OAuthCall(bc, db, id, profile, salt)
    case SeedAdmin(id, seedSalt, salt) => SeedCall(bc, db, id, seedSalt, salt)
  }

  /** The table after a run of operations from the empty table. */
  ghost function Run(bc: Bcrypt, ops: seq<Op>): Table {
    if ops == [] then map[] else Apply(bc, Run(bc, ops[..|ops| - 1]), ops[|ops| - 1]).0
  }

  // ---- emails ------------------------------------------------------------------------------

  /** Any failing operation leaves the table as it was. */
  lemma FailureChangesNothing(bc: Bcrypt, db: Table, op: Op)
    ensures Apply(bc, db, op).1.Err? ==> Apply(bc, db, op).0 == db
  {}

  /** The operations of a run that succeed in it. */
  ghost function Effective(bc: Bcrypt, ops: seq<Op>): seq<Op> {
    if ops == [] then []
    else
      var init, op := ops[..|ops| - 1], ops[|ops| - 1];
      Effective(bc, init) + if Apply(bc, Run(bc, init), op).1.Ok? then [op] else []
  }

  /** Failed calls leave no trace: a run ends in the same table, and the same passwords given, as its effective operations. */
  lemma {:induction false} FailuresLeaveNoTrace(bc: Bcrypt, ops: seq<Op>)
    ensures Run(bc, Effective(bc, ops)) == Run(bc, ops)
    ensures forall id :: LastGiven(bc, Effective(bc, ops), id) == LastGiven(bc, ops, id)
  {
    if ops != [] {
      var init, op := ops[..|ops| - 1], ops[|ops| - 1];
      var effective := Effective(bc, ops);
      FailuresLeaveNoTrace(bc, init);
      FailureChangesNothing(bc, Run(bc, init), op);
      hide Apply, Gives;
      if Apply(bc, Run(bc, init), op).1.Ok? {
        assert effective == Effective(bc, init) + [op];
        assert effective[..|effective| - 1] == Effective(bc, init);
      } else {
        assert effective == Effective(bc, init);
      }
    }
  }

  lemma EmailsStayDistinctInAStep(bc: Bcrypt, db: Table, op: Op)
    requires DistinctEmails(db)
    ensures DistinctEmails(Apply(bc, db, op).0)
  {}

  /** No two rows of a reachable table share an email, soft-deleted rows included. */
  lemma {:induction false} EmailsAreDistinct(bc: Bcrypt, ops: seq<Op>)
    ensures DistinctEmails(Run(bc, ops))
  {
    if ops != [] {
      EmailsAreDistinct(bc, ops[..|ops| - 1]);
      EmailsStayDistinctInAStep(bc, Run(bc, ops[..|ops| - 1]), ops[|ops| - 1]);
    }
  }

  lemma RemovedRowInAStep(bc: Bcrypt, db: Table, op: Op, id: UserId)
    requires id in db && db[id].deleted
    ensures id in Apply(bc, db, op).0 && Apply(bc, db, op).0[id] == db[id]
  {}

  lemma {:induction false} RemovedRowIsFrozen(bc: Bcrypt, ops: seq<Op>, more: seq<Op>, id: UserId)
    requires id in Run(bc, ops) && Run(bc, ops)[id].deleted
    ensures id in Run(bc, ops + more) && Run(bc, ops + more)[id] == Run(bc, ops)[id]
  {
    hide Apply;
    if more == [] {
      assert ops + more == ops;
    } else {
      var all, init := ops + more, more[..|more| - 1];
      assert all[..|all| - 1] == ops + init;
      RemovedRowIsFrozen(bc, ops, init, id);
      RemovedRowInAStep(bc, Run(bc, ops + init), all[|all| - 1], id);
    }
  }

  /**
   * The email of a removed user is taken for ever: however long the run goes on, no user can be
   * created with it and no other user can move to it, although lookups no longer find it.
   */
  lemma RemovedEmailStaysTaken(bc: Bcrypt, ops: seq<Op>, more: seq<Op>, id: UserId, op: Op)
    requires id in Run(bc, ops) && Run(bc, ops)[id].deleted
    requires var email := Run(bc, ops)[id].email;
             (op.Create? && op.new'.email == email) || (op.Update? && op.change.email == Some(email))
    ensures var later := Run(bc, ops + more);
            && Apply(bc, later, op).1.Err?
            && (op.Create? ==> Apply(bc, later, op).1 == Err(UniqueViolation))
  {
    var later := Run(bc, ops + more);
    RemovedRowIsFrozen(bc, ops, more, id);
    EmailsAreDistinct(bc, ops + more);
    assert later[id].email == Run(bc, ops)[id].email;
  }

  // ---- passwords ---------------------------------------------------------------------------

  /** The password an operation gives to a user, if it gives one. */
  function Gives(op: Op, bc: Bcrypt, id: UserId): Option<Option<string>> {
    match op
    case Create(newId, dto, _) => if newId == id then Some(dto.password) else None
    case Update(target, dto, _) => if target == id then dto.password else None
    case SeedAdmin(newId, seedSalt, _) =>
      if newId == id then Some(Some(bc.hash(ADMIN_PASSWORD, seedSalt))) else None
    case _ => None
  }

  /** The password most recently given to a user by an operation that succeeded; None for null or never. */
  ghost function LastGiven(bc: Bcrypt, ops: seq<Op>, id: UserId): Option<string> {
    if ops == [] then None
    else
      var before, op := ops[..|ops| - 1], ops[|ops| - 1];
      if Apply(bc, Run(bc, before), op).1.Ok? && Gives(op, bc, id).Some?
      then Gives(op, bc, id).value
      else LastGiven(bc, before, id)
  }

  /** The stored column holds one hash of the given password, or the given text if it looked hashed already. */
  ghost predicate HashedOnce(bc: Bcrypt, given: Option<string>, stored: Option<string>) {
    match given
    case None => stored == None
    case Some(p) =>
      if p == "" || LooksHashed(p) then stored == Some(p)
      else exists salt :: stored == Some(bc.hash(p, salt))
  }

  /** Saving again keeps what a first save stored. */
  lemma HookKeepsHashedOnce(bc: Bcrypt, given: Option<string>, stored: Option<string>, salt: string)
    requires Sound(bc) && HashedOnce(bc, given, stored)
    ensures Hooked(bc, stored, salt) == stored
  {}

  lemma HookHashesOnce(bc: Bcrypt, given: Option<string>, salt: string)
    ensures HashedOnce(bc, given, Hooked(bc, given, salt))
  {}

  /** One operation: a user's column is hooked from what is given, or else stays what it was. */
  lemma StepOfAPassword(bc: Bcrypt, db: Table, op: Op, id: UserId, given: Option<string>)
    requires Sound(bc) && id in Apply(bc, db, op).0
    requires id in db ==> HashedOnce(bc, given, db[id].password)
    requires id !in db ==> given == None
    ensures var r := Apply(bc, db, op);
            HashedOnce(bc, if r.1.Ok? && Gives(op, bc, id).Some? then Gives(op, bc, id).value else given, r.0[id].password)
    ensures Gives(op, bc, id).None? && id in db ==> Apply(bc, db, op).0[id].password == db[id].password
  {
    var r := Apply(bc, db, op);
    assert HashedOnce(bc, None, None);
    hide HashedOnce, Hooked, LooksHashed;
    if r.1.Ok? && Gives(op, bc, id).Some? {
      HookHashesOnce(bc, Gives(op, bc, id).value, op.salt);
    } else if id in db {
      if !op.Remove? { HookKeepsHashedOnce(bc, given, db[id].password, op.salt); }
    }
  }

  /** Rows are never taken out of the table, and only a user with a row is given a password. */
  lemma GivenOnlyToRows(bc: Bcrypt, db: Table, op: Op, id: UserId)
    ensures id in db ==> id in Apply(bc, db, op).0
    ensures Apply(bc, db, op).1.Ok? && Gives(op, bc, id).Some? ==> id in Apply(bc, db, op).0
  {}

  /** In every run each stored password is one hash of the password last given, never a hash of a hash. */
  lemma {:induction false} PasswordsAreHashedOnce(bc: Bcrypt, ops: seq<Op>, id: UserId)
    requires Sound(bc)
    ensures id in Run(bc, ops) ==> HashedOnce(bc, LastGiven(bc, ops, id), Run(bc, ops)[id].password)
    ensures id !in Run(bc, ops) ==> LastGiven(bc, ops, id) == None
  {
    if ops != [] {
      var before, op := ops[..|ops| - 1], ops[|ops| - 1];
      PasswordsAreHashedOnce(bc, before, id);
      GivenOnlyToRows(bc, Run(bc, before), op, id);
      hide Apply, HashedOnce;
      if id in Run(bc, ops) {
        StepOfAPassword(bc, Run(bc, before), op, id, LastGiven(bc, before, id));
      }
    }
  }

  /**
   * In every reachable table an operation that gives no password changes exactly the columns it
   * names, in exactly one row: the hook, which runs on each of these saves, leaves the stored
   * password as it is.
   */
  lemma SavesWithoutAPasswordAreExact(bc: Bcrypt, ops: seq<Op>, op: Op)
    requires Sound(bc)
    ensures var db, r := Run(bc, ops), Apply(bc, Run(bc, ops), op);
            && (op.SetStatus? && r.1.Ok? ==>
                  op.id in db && r.0 == db[op.id := db[op.id].(status := op.status)])
            && (op.Update? && op.change.password.None? && r.1.Ok? ==>
                  op.id in db
                  && var row, dto := db[op.id], op.change;
                  r.0 == db[op.id := row.(email := dto.email.GetOr(row.email), status := dto.status.GetOr(row.status),
                                          firstName := dto.firstName.GetOr(row.firstName))])
            && (op.OAuthSignIn? && r.1.Ok? && r.1.value in db ==>
                  r.0 == db[r.1.value := db[r.1.value].(
                            provider := op.profile.provider, providerId := Some(op.profile.id),
                            providerData := Some(op.profile), emailVerified := true)])
  {
    hide HashedOnce, Hooked, Sound, LastGiven, Run;
    var db, r := Run(bc, ops), Apply(bc, Run(bc, ops), op);
    if r.1.Ok? && r.1.value in db && !op.Remove? {
      var id := r.1.value;
      PasswordsAreHashedOnce(bc, ops, id);
      HookKeepsHashedOnce(bc, LastGiven(bc, ops, id), db[id].password, op.salt);
    }
  }

  /** What a candidate must meet, in terms of the password last given. */
  ghost predicate Opens(bc: Bcrypt, given: Option<string>, candidate: string) {
    given.Some? && given.value != ""
    && if LooksHashed(given.value) then bc.compare(candidate, given.value) else bc.accepts(candidate, given.value)
  }

  /**
   * validateUser, over all runs: it lets a candidate in exactly for a live ACTIVE user with that
   * email whose last given password the candidate opens. A given text that looks hashed is taken
   * as the hash itself, as the seeder intends.
   */
  lemma ValidateAcceptsExactly(bc: Bcrypt, ops: seq<Op>, email: string, candidate: string, id: UserId)
    requires Sound(bc)
    ensures var db := Run(bc, ops);
            ValidateCall(bc, db, email, candidate) == Ok(id) <==>
              Live(db, id) && db[id].email == email && db[id].status == ACTIVE && Opens(bc, LastGiven(bc, ops, id), candidate)
  {
    var db := Run(bc, ops);
    EmailsAreDistinct(bc, ops);
    PasswordsAreHashedOnce(bc, ops, id);
    if LiveEmail(db, email) {
      var holder := ByEmail(db, email);
      PasswordsAreHashedOnce(bc, ops, holder);
    }
  }

  /** The operations that may change the email, status or password of an existing user. */
  predicate Touches(op: Op, id: UserId) {
    (op.Update? || op.SetStatus? || op.Remove?) && op.id == id
  }

  lemma UntouchedInAStep(bc: Bcrypt, db: Table, op: Op, id: UserId)
    requires id in db && !Touches(op, id)
    ensures var db' := Apply(bc, db, op).0;
            id in db' && db'[id].email == db[id].email && db'[id].status == db[id].status && db'[id].deleted == db[id].deleted
    ensures Apply(bc, db, op).1.Ok? ==> Gives(op, bc, id).None?
  {}

  lemma {:induction false} Untouched(bc: Bcrypt, ops: seq<Op>, more: seq<Op>, id: UserId)
    requires id in Run(bc, ops) && forall op :: op in more ==> !Touches(op, id)
    ensures var db, db' := Run(bc, ops), Run(bc, ops + more);
            id in db' && db'[id].email == db[id].email && db'[id].status == db[id].status && db'[id].deleted == db[id].deleted
    ensures LastGiven(bc, ops + more, id) == LastGiven(bc, ops, id)
  {
    hide Apply, Gives;
    if more == [] {
      assert ops + more == ops;
    } else {
      var all, init := ops + more, more[..|more| - 1];
      assert all[..|all| - 1] == ops + init;
      Untouched(bc, ops, init, id);
      UntouchedInAStep(bc, Run(bc, ops + init), all[|all| - 1], id);
    }
  }

  /**
   * Once seeded, and whatever happens to other users, the administrator signs in with exactly the
   * seeder's password, which is stored hashed and not hashed again.
   */
  lemma SeededAdminSignsIn(bc: Bcrypt, ops: seq<Op>, id: UserId, seedSalt: string, salt: string, more: seq<Op>, candidate: string)
    requires Sound(bc) && Apply(bc, Run(bc, ops), SeedAdmin(id, seedSalt, salt)).1.Ok?
    requires forall op :: op in more ==> !Touches(op, id)
    ensures ValidateCall(bc, Run(bc, ops + [SeedAdmin(id, seedSalt, salt)] + more), "admin@example.com", candidate) == Ok(id)
       <==> bc.accepts(candidate, "Admin123!")
  {
    var seeded := ops + [SeedAdmin(id, seedSalt, salt)];
    assert seeded[..|ops|] == ops && seeded[..|seeded| - 1] == ops;
    assert LooksHashed(bc.hash(ADMIN_PASSWORD, seedSalt));
    assert Live(Run(bc, seeded), id) && Run(bc, seeded)[id].email == ADMIN_EMAIL && Run(bc, seeded)[id].status == ACTIVE;
    assert LastGiven(bc, seeded, id) == Some(bc.hash(ADMIN_PASSWORD, seedSalt));
    hide Run, LastGiven, Apply, ValidateCall;
    Untouched(bc, seeded, more, id);
    ValidateAcceptsExactly(bc, seeded + more, ADMIN_EMAIL, candidate, id);
  }

  /** What the seeder writes, if no live user has the administrator's email; else it leaves the table alone. */
  lemma SeededRow(bc: Bcrypt, db: Table, id: UserId, seedSalt: string, salt: string)
    requires Sound(bc)
    ensures var r := Apply(bc, db, SeedAdmin(id, seedSalt, salt));
            && (LiveEmail(db, "admin@example.com") ==> r.0 == db)
            && (r.1.Ok? ==>
                  && id !in db && r.0 == db[id := r.0[id]]
                  && var row := r.0[id];
                  && row.email == "admin@example.com" && row.firstName == "Admin" && row.provider == "local"
                  && row.status == ACTIVE && row.emailVerified && !row.deleted
                  && row.password == Some(bc.hash("Admin123!", seedSalt)))
  {
    assert LooksHashed(bc.hash("Admin123!", seedSalt));
  }

  // ---- status ------------------------------------------------------------------------------

  /** The status an operation that succeeds gives to a user: PENDING to a user created without one. */
  function GivesStatus(op: Op, isNew: bool, id: UserId): Option<Status> {
    match op
    case Create(newId, dto, _) =>
      if newId != id then None else if dto.status.Some? then dto.status else Some(PENDING)
    case Update(target, dto, _) => if target == id then dto.status else None
    case SetStatus(target, status, _) => if target == id then Some(status) else None
    case OAuthSignIn(newId, _, _) => if newId == id && isNew then Some(ACTIVE) else None
    case SeedAdmin(newId, _, _) => if newId == id then Some(ACTIVE) else None
    case Remove(_) => None
  }

  /** The status most recently given to a user by an operation that succeeded. */
  ghost function LastStatus(bc: Bcrypt, ops: seq<Op>, id: UserId): Option<Status> {
    if ops == [] then None
    else
      var before, op := ops[..|ops| - 1], ops[|ops| - 1];
      var isNew := id !in Run(bc, before) && id in Run(bc, ops);
      if Apply(bc, Run(bc, before), op).1.Ok? && GivesStatus(op, isNew, id).Some?
      then GivesStatus(op, isNew, id)
      else LastStatus(bc, before, id)
  }

  lemma StatusInAStep(bc: Bcrypt, db: Table, op: Op, id: UserId)
    ensures var r := Apply(bc, db, op);
            id in r.0 ==>
              var gives := GivesStatus(op, id !in db, id);
              if r.1.Ok? && gives.Some? then gives == Some(r.0[id].status)
              else id in db && r.0[id].status == db[id].status
  {
    hide Hooked;
  }

  /** In every run a user's status is the one last given: neither sign-ins nor profile saves change it. */
  lemma {:induction false} StatusIsLastGiven(bc: Bcrypt, ops: seq<Op>, id: UserId)
    requires id in Run(bc, ops)
    ensures LastStatus(bc, ops, id) == Some(Run(bc, ops)[id].status)
  {
    hide Apply, GivesStatus;
    if ops != [] {
      var before, op := ops[..|ops| - 1], ops[|ops| - 1];
      StatusInAStep(bc, Run(bc, before), op, id);
      if id in Run(bc, before) { StatusIsLastGiven(bc, before, id); }
    }
  }

  /** No operation gives the user the status ACTIVE. */
  predicate NeverActivates(ops: seq<Op>, id: UserId) {
    forall op :: op in ops ==>
      && (op.Update? && op.id == id ==> op.change.status != Some(ACTIVE))
      && (op.SetStatus? && op.id == id ==> op.status != ACTIVE)
  }

  lemma RunGoesOn(bc: Bcrypt, start: seq<Op>, more: seq<Op>)
    requires more != []
    ensures Run(bc, start + more) == Apply(bc, Run(bc, start + more[..|more| - 1]), more[|more| - 1]).0
  {
    hide Apply;
    var all := start + more;
    assert all[..|all| - 1] == start + more[..|more| - 1];
  }

  lemma {:induction false} NotActiveStays(bc: Bcrypt, start: seq<Op>, more: seq<Op>, id: UserId)
    requires id in Run(bc, start) && Run(bc, start)[id].status != ACTIVE && NeverActivates(more, id)
    ensures var db := Run(bc, start + more); id in db && db[id].status != ACTIVE
  {
    hide Apply, Run;
    if more == [] {
      assert start + more == start;
    } else {
      var init, op := more[..|more| - 1], more[|more| - 1];
      assert op in more;
      NotActiveStays(bc, start, init, id);
      StaysNotActive(bc, Run(bc, start + init), op, id);
      RunGoesOn(bc, start, more);
    }
  }

  /** A user created without a status is let in by nothing until an update or a status call gives ACTIVE. */
  lemma PendingUsersAreRefused(bc: Bcrypt, ops: seq<Op>, create: Op, more: seq<Op>, email: string, password: string)
    requires create.Create? && create.new'.status.None? && Apply(bc, Run(bc, ops), create).1.Ok?
    requires NeverActivates(more, create.newId)
    ensures var db := Run(bc, ops + [create] + more);
            && create.newId in db && db[create.newId].status != ACTIVE
            && ValidateCall(bc, db, email, password) != Ok(create.newId)
  {
    hide Apply, Run, ValidateCall, NeverActivates;
    RunGoesOn(bc, ops, [create]);
    assert ops + [create][..0] == ops;
    CreatedPending(bc, Run(bc, ops), create);
    NotActiveStays(bc, ops + [create], more, create.newId);
    NotActiveIsRefused(bc, Run(bc, ops + [create] + more), create.newId, email, password);
  }

  lemma CreatedPending(bc: Bcrypt, db: Table, create: Op)
    requires create.Create? && create.new'.status.None? && Apply(bc, db, create).1.Ok?
    ensures create.newId in Apply(bc, db, create).0 && Apply(bc, db, create).0[create.newId].status == PENDING
  {}

  lemma StaysNotActive(bc: Bcrypt, db: Table, op: Op, id: UserId)
    requires id in db && db[id].status != ACTIVE
    requires op.Update? && op.id == id ==> op.change.status != Some(ACTIVE)
    requires op.SetStatus? && op.id == id ==> op.status != ACTIVE
    ensures id in Apply(bc, db, op).0 && Apply(bc, db, op).0[id].status != ACTIVE
  {
    hide Hooked;
  }

  lemma NotActiveIsRefused(bc: Bcrypt, db: Table, id: UserId, email: string, password: string)
    requires id in db && db[id].status != ACTIVE
    ensures ValidateCall(bc, db, email, password) != Ok(id)
  {}

  /** A sound toy bcrypt, to show concretely what happens to a password that looks hashed. */
  function ToyBcrypt(): Bcrypt {
    Bcrypt((p: string, salt: string) => HASH_MARK + p, (q: string, h: string) => h == HASH_MARK + q, (q: string, p: string) => q == p)
  }

  lemma ToyBcryptIsSound()
    ensures Sound(ToyBcrypt())
  {
    var bc := ToyBcrypt();
    forall q: string, p: string, salt: string ensures bc.compare(q, bc.hash(p, salt)) == bc.accepts(q, p) {
      assert (HASH_MARK + p)[|HASH_MARK|..] == p && (HASH_MARK + q)[|HASH_MARK|..] == q;
    }
  }

  const TRICKY := "$2b$secret"
  const TRICKY_RUN: seq<Op> := [Create("id", CreateUserDto("a@b.c", Some(TRICKY), Some(ACTIVE), "Ann"), "salt")]

  /** A plaintext that starts like a hash is stored as it is: its own text does not sign in, another one does. */
  lemma PlaintextThatLooksHashed()
    ensures Sound(ToyBcrypt()) && LastGiven(ToyBcrypt(), TRICKY_RUN, "id") == Some(TRICKY)
    ensures ValidateCall(ToyBcrypt(), Run(ToyBcrypt(), TRICKY_RUN), "a@b.c", TRICKY) == Err(InvalidCredentials)
    ensures ValidateCall(ToyBcrypt(), Run(ToyBcrypt(), TRICKY_RUN), "a@b.c", "secret") == Ok("id")
  {
    var bc, op := ToyBcrypt(), TRICKY_RUN[0];
    ToyBcryptIsSound();
    assert TRICKY_RUN[..0] == [] && Run(bc, []) == map[];
    assert LooksHashed(TRICKY);
    assert Apply(bc, map[], op) == (map["id" := NewRow(op.new')], Ok("id"));
    var db := Run(bc, TRICKY_RUN);
    assert db == map["id" := NewRow(op.new')];
    assert Gives(op, bc, "id") == Some(Some(TRICKY));
    assert db["id"].email == "a@b.c" && LiveEmail(db, "a@b.c");
    assert ByEmail(db, "a@b.c") == "id";
    assert TRICKY == HASH_MARK + "secret";
    assert |HASH_MARK + TRICKY| != |TRICKY|;
  }
}
