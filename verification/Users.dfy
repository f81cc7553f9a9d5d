/**
 * Users: the entity with its password hook (src/modules/users/entities/user.entity.ts), the
 * service that changes rows (src/modules/users/users.service.ts), the two lookups AuthService
 * makes on users, and the seeded administrator.
 */
module Users {
  import opened Prelude

  type UserId = string

  datatype Status = ACTIVE | INACTIVE | BANNED | PENDING

  /**
   * bcrypt. accepts(q, p) says that bcrypt takes q for the password p; it stands for equality up
   * to the part of a password that bcrypt reads.
   */
  datatype Bcrypt = Bcrypt(
    hash: (string, string) -> string,      // password, salt
    compare: (string, string) -> bool,     // candidate, hash
    accepts: (string, string) -> bool)     // candidate, password

  const HASH_MARK := "$2b$"

  predicate LooksHashed(s: string) {
    HASH_MARK <= s
  }

  ghost predicate Sound(bc: Bcrypt) {
    && (forall p, salt :: LooksHashed(bc.hash(p, salt)))
    && (forall q, p, salt :: bc.compare(q, bc.hash(p, salt)) == bc.accepts(q, p))
  }

  /** A row of the users table; a null password is None, a soft-deleted row stays in the table. */
  datatype Row = Row(
    email: string, password: Option<string>, status: Status, deleted: bool,
    firstName: string, provider: string, providerId: Option<string>, providerData: Option<Profile>, emailVerified: bool)

  /** What an OAuth provider tells about a user. */
  datatype Profile = Profile(
    email: Option<string>, provider: string, id: string, givenName: Option<string>, displayName: Option<string>) {

    /** The given name, or else the display name, or else nothing; an empty one counts as missing. */
    function FirstName(): string {
      if givenName.GetOr("") != "" then givenName.value else displayName.GetOr("")
    }
  }

  type Table = map<UserId, Row>

  datatype Error = NotFound | Conflict | UniqueViolation | BadRequest | InvalidCredentials | NotActive | NoPassword

  // ---- the entity --------------------------------------------------------------------------

  /** What the hook that runs on every insert and update leaves in the password column. */
  function Hooked(bc: Bcrypt, password: Option<string>, salt: string): Option<string> {
    match password
    case None => None
    case Some(p) => if p != "" && !LooksHashed(p) then Some(bc.hash(p, salt)) else password
  }

  class User {
    const id: UserId
    var email: string
    var password: Option<string>
    var status: Status
    var firstName: string
    var provider: string
    var providerId: Option<string>
    var providerData: Option<Profile>
    var emailVerified: bool

    function Columns(): Row
      reads this
    {
      Row(email, password, status, false, firstName, provider, providerId, providerData, emailVerified)
    }

    constructor (id: UserId, row: Row)
      ensures this.id == id && Columns() == row.(deleted := false)
    {
      this.id, email, password, status := id, row.email, row.password, row.status;
      firstName, provider, emailVerified := row.firstName, row.provider, row.emailVerified;
      providerId, providerData := row.providerId, row.providerData;
    }

    predicate WasPasswordUpdated()
      reads this
    {
      password.Some? && !LooksHashed(password.value)
    }

    method HashPassword(bc: Bcrypt, salt: string)
      modifies this`password
      ensures password == Hooked(bc, old(password), salt)
    {
      if password.Some? && password.value != "" && WasPasswordUpdated() {
        password := Some(bc.hash(password.value, salt));
      }
    }
  }

  // ---- what the calls do to the table ------------------------------------------------------

  predicate Live(db: Table, id: UserId) {
    id in db && !db[id].deleted
  }

  /** An ordinary find by email meets some row: soft-deleted rows are skipped. */
  predicate LiveEmail(db: Table, email: string) {
    exists id :: id in db && !db[id].deleted && db[id].email == email
  }

  /** The UNIQUE column looks at every row, soft-deleted ones included. */
  predicate UsedByOther(db: Table, id: UserId, email: string) {
    exists other :: other in db && other != id && db[other].email == email
  }

  ghost predicate DistinctEmails(db: Table) {
    forall a, b :: a in db && b in db && db[a].email == db[b].email ==> a == b
  }

  datatype CreateUserDto = CreateUserDto(email: string, password: Option<string>, status: Option<Status>, firstName: string)

  /** Absent fields are None; the password may also be set to null. */
  datatype UpdateUserDto = UpdateUserDto(
    email: Option<string>, password: Option<Option<string>>, status: Option<Status>, firstName: Option<string>)

  function Merge(row: Row, dto: UpdateUserDto): Row {
    row.(email := if dto.email.Some? then dto.email.value else row.email,
         password := if dto.password.Some? then dto.password.value else row.password,
         status := if dto.status.Some? then dto.status.value else row.status,
         firstName := if dto.firstName.Some? then dto.firstName.value else row.firstName)
  }

  function NewRow(dto: CreateUserDto): Row {
    Row(dto.email, dto.password, if dto.status.Some? then dto.status.value else PENDING, false, dto.firstName, "local", None, None, false)
  }

  /** Repository.save: the hook runs, then the write is refused if it breaks the UNIQUE email. */
  function Saved(bc: Bcrypt, db: Table, id: UserId, row: Row, salt: string): (r: (Table, Result<UserId, Error>))
    ensures r.1.Ok? <==> !UsedByOther(db, id, row.email)
    ensures r.1.Err? ==> r.0 == db
  {
    if UsedByOther(db, id, row.email) then (db, Err(UniqueViolation))
    else (db[id := row.(password := Hooked(bc, row.password, salt))], Ok(id))
  }

  /** An insert takes a new id: the database refuses one that is taken. */
  function Inserted(bc: Bcrypt, db: Table, id: UserId, row: Row, salt: string): (Table, Result<UserId, Error>) {
    if id in db then (db, Err(UniqueViolation)) else Saved(bc, db, id, row, salt)
  }

  /** create succeeds exactly when no row, live or soft-deleted, has the email; else nothing changes. */
  function CreateCall(bc: Bcrypt, db: Table, id: UserId, dto: CreateUserDto, salt: string): (r: (Table, Result<UserId, Error>))
    ensures r.1.Ok? <==> id !in db && forall other :: other in db ==> db[other].email != dto.email
    ensures r.1.Err? ==> r.0 == db
    ensures r.1 == Err(Conflict) <==> LiveEmail(db, dto.email)
    ensures r.1.Err? ==> r.1.error in {Conflict, UniqueViolation}
  {
    if LiveEmail(db, dto.email) then (db, Err(Conflict))
    else Inserted(bc, db, id, NewRow(dto), salt)
  }

  /** update succeeds exactly when the user is live and no other row has the new email; else nothing changes. */
  function UpdateCall(bc: Bcrypt, db: Table, id: UserId, dto: UpdateUserDto, salt: string): (r: (Table, Result<UserId, Error>))
    ensures r.1.Ok? <==> Live(db, id) && !UsedByOther(db, id, Merge(db[id], dto).email)
    ensures r.1.Err? ==> r.0 == db
    ensures r.1 == Err(NotFound) <==> !Live(db, id)
    ensures r.1 == Err(Conflict) <==>
              && Live(db, id) && dto.email.Some? && dto.email.value != "" && dto.email.value != db[id].email
              && LiveEmail(db, dto.email.value)
    ensures r.1.Err? ==> r.1.error in {NotFound, Conflict, UniqueViolation}
  {
    if !Live(db, id) then (db, Err(NotFound))
    else
      var row := db[id];
      if dto.email.Some? && dto.email.value != "" && dto.email.value != row.email && LiveEmail(db, dto.email.value)
      then (db, Err(Conflict))
      else Saved(bc, db, id, Merge(row, dto), salt)
  }

  function UpdateStatusCall(bc: Bcrypt, db: Table, id: UserId, status: Status, salt: string): (Table, Result<UserId, Error>) {
    if !Live(db, id) then (db, Err(NotFound))
    else Saved(bc, db, id, db[id].(status := status), salt)
  }

  function RemoveCall(db: Table, id: UserId): (Table, Result<UserId, Error>) {
    if !Live(db, id) then (db, Err(NotFound)) else (db[id := db[id].(deleted := true)], Ok(id))
  }

  function OAuthRow(profile: Profile): Row
    requires profile.email.Some?
  {
    Row(profile.email.value, None, ACTIVE, false, profile.FirstName(), profile.provider, Some(profile.id), Some(profile), true)
  }

  /** The live row with an email: by DistinctEmails there is at most one. */
  ghost function ByEmail(db: Table, email: string): (id: UserId)
    requires LiveEmail(db, email)
    ensures Live(db, id) && db[id].email == email
  {
    var id :| id in db && !db[id].deleted && db[id].email == email;
    id
  }

  function Linked(row: Row, profile: Profile): Row {
    row.(provider := profile.provider, providerId := Some(profile.id), providerData := Some(profile), emailVerified := true)
  }

  /** AuthService.validateOAuthUser: finds or creates the user of an OAuth profile. */
  ghost function OAuthCall(bc: Bcrypt, db: Table, newId: UserId, profile: Profile, salt: string): (Table, Result<UserId, Error>) {
    if profile.email.None? || profile.email.value == "" then (db, Err(BadRequest))
    else if !LiveEmail(db, profile.email.value) then Inserted(bc, db, newId, OAuthRow(profile), salt)
    else
      var id := ByEmail(db, profile.email.value);
      Saved(bc, db, id, Linked(db[id], profile), salt)
  }

  const ADMIN_EMAIL := "admin@example.com"
  const ADMIN_PASSWORD := "Admin123!"

  /** The seeder stores a password that is hashed already. */
  function SeedCall(bc: Bcrypt, db: Table, newId: UserId, seedSalt: string, salt: string): (Table, Result<UserId, Error>) {
    if LiveEmail(db, ADMIN_EMAIL) then (db, Err(Conflict))
    else Inserted(bc, db, newId,
                  Row(ADMIN_EMAIL, Some(bc.hash(ADMIN_PASSWORD, seedSalt)), ACTIVE, false, "Admin", "local", None, None, true), salt)
  }

  /** AuthService.validateUser. */
  ghost function ValidateCall(bc: Bcrypt, db: Table, email: string, password: string): Result<UserId, Error> {
    if !LiveEmail(db, email) then Err(InvalidCredentials)
    else
      var id := ByEmail(db, email);
      if db[id].status != ACTIVE then Err(NotActive)
      else if db[id].password.None? || db[id].password.value == "" then Err(NoPassword)
      else if !bc.compare(password, db[id].password.value) then Err(InvalidCredentials)
      else Ok(id)
  }

  // ---- the code, on heap objects -----------------------------------------------------------

  /** Repository<User>: every find makes a new entity object, save writes an entity back. */
  class UsersRepository {
    var rows: Table

    ghost predicate Valid()
      reads this
    {
      DistinctEmails(rows)
    }

    method FindOneById(id: UserId) returns (found: Option<User>)
      ensures found.Some? <==> Live(rows, id)
      ensures found.Some? ==> fresh(found.value) && found.value.id == id && found.value.Columns() == rows[id]
    {
      if id in rows && !rows[id].deleted {
        var user := new User(id, rows[id]);
        return Some(user);
      }
      return None;
    }

    method FindOneByEmail(email: string) returns (found: Option<User>)
      requires Valid()
      ensures found.Some? <==> LiveEmail(rows, email)
      ensures found.Some? ==> fresh(found.value) && found.value.id == ByEmail(rows, email)
      ensures found.Some? ==> found.value.Columns() == rows[found.value.id]
    {
      if LiveEmail(rows, email) {
        var id :| id in rows && !rows[id].deleted && rows[id].email == email;
        var user := new User(id, rows[id]);
        return Some(user);
      }
      return None;
    }

    /** merge: the fields that are there overwrite the entity's. */
    method MergeInto(user: User, dto: UpdateUserDto)
      modifies user
      ensures user.Columns() == Merge(old(user.Columns()), dto)
    {
      if dto.email.Some? { user.email := dto.email.value; }
      if dto.password.Some? { user.password := dto.password.value; }
      if dto.status.Some? { user.status := dto.status.value; }
      if dto.firstName.Some? { user.firstName := dto.firstName.value; }
    }

    method Save(bc: Bcrypt, user: User, salt: string) returns (r: Result<UserId, Error>)
      modifies this, user`password
      ensures (rows, r) == Saved(bc, old(rows), user.id, old(user.Columns()), salt)
      ensures r.Ok? ==> user.Columns() == rows[user.id]
    {
      user.HashPassword(bc, salt);
      if UsedByOther(rows, user.id, user.email) {
        return Err(UniqueViolation);
      }
      rows := rows[user.id := user.Columns()];
      return Ok(user.id);
    }

    /** save of an entity that has no row yet, under an id the database generates. */
    method Insert(bc: Bcrypt, user: User, salt: string) returns (r: Result<UserId, Error>)
      modifies this, user`password
      ensures (rows, r) == Inserted(bc, old(rows), user.id, old(user.Columns()), salt)
    {
      if user.id in rows {
        return Err(UniqueViolation);
      }
      r := Save(bc, user, salt);
    }

    method SoftRemove(user: User)
      requires user.id in rows
      modifies this
      ensures rows == old(rows)[user.id := old(rows)[user.id].(deleted := true)]
    {
      rows := rows[user.id := rows[user.id].(deleted := true)];
    }
  }

  class UsersService {
    const repository: UsersRepository
    const bcrypt: Bcrypt

    constructor (repository: UsersRepository, bcrypt: Bcrypt)
      ensures this.repository == repository && this.bcrypt == bcrypt
    {
      this.repository, this.bcrypt := repository, bcrypt;
    }

    method Create(newId: UserId, dto: CreateUserDto, salt: string) returns (r: Result<UserId, Error>)
      requires repository.Valid()
      modifies repository
      ensures (repository.rows, r) == CreateCall(bcrypt, old(repository.rows), newId, dto, salt)
      ensures r.Ok? ==>
                && newId !in old(repository.rows) && repository.rows.Keys == old(repository.rows).Keys + {newId}
                && (forall id :: id in old(repository.rows) ==> repository.rows[id] == old(repository.rows)[id])
                && var row := repository.rows[newId];
                && row.email == dto.email && row.firstName == dto.firstName
                && row.status == (if dto.status.Some? then dto.status.value else PENDING)
                && row.provider == "local" && row.providerId.None? && row.providerData.None?
                && !row.emailVerified && !row.deleted
                && row.password == Hooked(bcrypt, dto.password, salt)
    {
      var existing := repository.FindOneByEmail(dto.email);
      if existing.Some? {
        return Err(Conflict);
      }
      var user := new User(newId, NewRow(dto));
      r := repository.Insert(bcrypt, user, salt);
    }

    method Update(id: UserId, dto: UpdateUserDto, salt: string) returns (r: Result<UserId, Error>)
      requires repository.Valid()
      modifies repository
      ensures (repository.rows, r) == UpdateCall(bcrypt, old(repository.rows), id, dto, salt)
      ensures r.Ok? ==>
                && id in old(repository.rows) && repository.rows == old(repository.rows)[id := repository.rows[id]]
                && var was, row := old(repository.rows)[id], repository.rows[id];
                && row.email == (if dto.email.Some? then dto.email.value else was.email)
                && row.status == (if dto.status.Some? then dto.status.value else was.status)
                && row.firstName == (if dto.firstName.Some? then dto.firstName.value else was.firstName)
                && row.password == Hooked(bcrypt, if dto.password.Some? then dto.password.value else was.password, salt)
                && row.provider == was.provider && row.providerId == was.providerId && row.providerData == was.providerData
                && row.emailVerified == was.emailVerified && !row.deleted
    {
      var found := repository.FindOneById(id);
      if found.None? {
        return Err(NotFound);
      }
      var user := found.value;
      if dto.email.Some? && dto.email.value != "" && dto.email.value != user.email {
        var existing := repository.FindOneByEmail(dto.email.value);
        if existing.Some? {
          return Err(Conflict);
        }
      }
      repository.MergeInto(user, dto);
      r := repository.Save(bcrypt, user, salt);
    }

    method UpdateStatus(id: UserId, status: Status, salt: string) returns (r: Result<UserId, Error>)
      modifies repository
      ensures (repository.rows, r) == UpdateStatusCall(bcrypt, old(repository.rows), id, status, salt)
      ensures r == Err(NotFound) <==> !Live(old(repository.rows), id)
      ensures r.Ok? ==>
                && id in old(repository.rows)
                && var was := old(repository.rows)[id];
                repository.rows == old(repository.rows)[id := was.(status := status, password := Hooked(bcrypt, was.password, salt))]
    {
      var found := repository.FindOneById(id);
      if found.None? {
        return Err(NotFound);
      }
      var user := found.value;
      user.status := status;
      r := repository.Save(bcrypt, user, salt);
    }

    method Remove(id: UserId) returns (r: Result<UserId, Error>)
      modifies repository
      ensures (repository.rows, r) == RemoveCall(old(repository.rows), id)
      ensures r == (if Live(old(repository.rows), id) then Ok(id) else Err(NotFound))
      ensures repository.rows == if Live(old(repository.rows), id)
                                 then old(repository.rows)[id := old(repository.rows)[id].(deleted := true)]
                                 else old(repository.rows)
    {
      var found := repository.FindOneById(id);
      if found.None? {
        return Err(NotFound);
      }
      repository.SoftRemove(found.value);
      return Ok(id);
    }
  }

  /** AuthService.validateUser. */
  method ValidateUser(repository: UsersRepository, bc: Bcrypt, email: string, password: string)
    returns (r: Result<UserId, Error>)
    requires repository.Valid()
    ensures r == ValidateCall(bc, repository.rows, email, password)
    ensures r.Ok? ==> Live(repository.rows, r.value) && repository.rows[r.value].email == email
    ensures forall id :: Live(repository.rows, id) && repository.rows[id].email == email ==>
              var row := repository.rows[id];
              && (r == Err(NotActive) <==> row.status != ACTIVE)
              && (r == Err(NoPassword) <==> row.status == ACTIVE && (row.password.None? || row.password.value == ""))
              && (r == Ok(id) <==> row.status == ACTIVE && row.password.Some? && row.password.value != ""
                                   && bc.compare(password, row.password.value))
    ensures !r.Ok? && r != Err(NotActive) && r != Err(NoPassword) ==> r == Err(InvalidCredentials)
    ensures (forall id :: Live(repository.rows, id) ==> repository.rows[id].email != email) ==> r == Err(InvalidCredentials)
  {
    var found := repository.FindOneByEmail(email);
    if found.None? {
      return Err(InvalidCredentials);
    }
    var user := found.value;
    if user.status != ACTIVE {
      return Err(NotActive);
    }
    if user.password.None? || user.password.value == "" {
      return Err(NoPassword);
    }
    if !bc.compare(password, user.password.value) {
      return Err(InvalidCredentials);
    }
    return Ok(user.id);
  }

  /** AuthService.validateOAuthUser. */
  method ValidateOAuthUser(repository: UsersRepository, bc: Bcrypt, newId: UserId, profile: Profile, salt: string)
    returns (r: Result<UserId, Error>)
    requires repository.Valid()
    modifies repository
    ensures (repository.rows, r) == OAuthCall(bc, old(repository.rows), newId, profile, salt)
    ensures r == Err(BadRequest) <==> profile.email.None? || profile.email.value == ""
    ensures r.Err? ==> repository.rows == old(repository.rows) && r.error in {BadRequest, UniqueViolation}
    ensures r.Ok? <==>
              var email := profile.email.GetOr("");
              && email != ""
              && (LiveEmail(old(repository.rows), email)
                  || (newId !in old(repository.rows) && forall id :: id in old(repository.rows) ==> old(repository.rows)[id].email != email))
    ensures r.Ok? ==> var id := r.value;
              && repository.rows == old(repository.rows)[id := repository.rows[id]]
              && var row := repository.rows[id];
              && Some(row.email) == profile.email && row.provider == profile.provider
              && row.providerId == Some(profile.id) && row.providerData == Some(profile)
              && row.emailVerified && !row.deleted
              && if id in old(repository.rows) then
                  var was := old(repository.rows)[id];
                  row.firstName == was.firstName && row.status == was.status && row.password == Hooked(bc, was.password, salt)
                else
                  && id == newId && row.status == ACTIVE && row.password.None?
                  && row.firstName == (if profile.givenName.Some? && profile.givenName.value != "" then profile.givenName.value
                                       else if profile.displayName.Some? then profile.displayName.value else "")
    ensures r.Ok? ==> (r.value in old(repository.rows) <==> LiveEmail(old(repository.rows), profile.email.GetOr("")))
  {
    if profile.email.None? || profile.email.value == "" {
      return Err(BadRequest);
    }
    var found := repository.FindOneByEmail(profile.email.value);
    if found.None? {
      var user := new User(newId, OAuthRow(profile));
      r := repository.Insert(bc, user, salt);
    } else {
      var user := found.value;
      user.provider := profile.provider;
      user.providerId := Some(profile.id);
      user.providerData := Some(profile);
      user.emailVerified := true;
      r := repository.Save(bc, user, salt);
    }
  }
}
