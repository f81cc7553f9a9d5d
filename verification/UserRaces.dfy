/**
 * User calls cut at their awaits: between fetching an entity and saving it other calls may run.
 * A save writes the fetched entity back as a whole, so it also restores what was changed, or
 * deleted, since the fetch. A task that is never advanced again is a call that stopped.
 */
module UserRaces {
  import opened Prelude
  import opened Users
  import UserRuns

  datatype Kind =
    | Create(newId: UserId, new': CreateUserDto)
    | Update(id: UserId, change: UpdateUserDto)
    | SetStatus(id: UserId, status: Status)
    | Remove(id: UserId)
    | OAuthSignIn(newId: UserId, profile: Profile)

  /** Held has fetched a row and not yet looked at the new email; Saving and Inserting hold the entity to be saved. */
  datatype Stage =
    | Asked
    | Held(id: UserId, row: Row)
    | Saving(id: UserId, row: Row)
    | Inserting(id: UserId, row: Row)
    | Removing(id: UserId)
    | Over

  datatype Task = Task(kind: Kind, stage: Stage)

  datatype State = State(db: Table, tasks: seq<Task>)

  datatype Action = Spawn(kind: Kind) | Advance(i: nat, salt: string)

  /** The first lookup of each call. */
  ghost function Fetch(db: Table, kind: Kind): Stage {
    match kind
    case Create(id, dto) => if LiveEmail(db, dto.email) then Over else Inserting(id, NewRow(dto))
    case Update(id, _) => if Live(db, id) then Held(id, db[id]) else Over
    case SetStatus(id, status) => if Live(db, id) then Saving(id, db[id].(status := status)) else Over
    case Remove(id) => if Live(db, id) then Removing(id) else Over
    case OAuthSignIn(id, profile) =>
      if profile.email.None? || profile.email.value == "" then Over
      else if !LiveEmail(db, profile.email.value) then Inserting(id, OAuthRow(profile))
      else
        var found := ByEmail(db, profile.email.value);
        Saving(found, Linked(db[found], profile))
  }

  /** The lookup of a new email, and the merge. */
  function Merged(db: Table, id: UserId, row: Row, dto: UpdateUserDto): Stage {
    if dto.email.Some? && dto.email.value != "" && dto.email.value != row.email && LiveEmail(db, dto.email.value) then Over
    else Saving(id, Merge(row, dto))
  }

  ghost function Moved(bc: Bcrypt, db: Table, t: Task, salt: string): (Table, Stage) {
    match t.stage
    case Asked => (db, Fetch(db, t.kind))
    case Held(id, row) => (db, if t.kind.Update? then Merged(db, id, row, t.kind.change) else Over)
    case Saving(id, row) => (Saved(bc, db, id, row, salt).0, Over)
    case Inserting(id, row) => (Inserted(bc, db, id, row, salt).0, Over)
    case Removing(id) => (if id in db then db[id := db[id].(deleted := true)] else db, Over)
    case Over => (db, Over)
  }

  ghost function Step(bc: Bcrypt, s: State, a: Action): State {
    match a
    case Spawn(kind) => s.(tasks := s.tasks + [Task(kind, Asked)])
    case Advance(i, salt) =>
      if i >= |s.tasks| then s
      else
        var moved := Moved(bc, s.db, s.tasks[i], salt);
        State(moved.0, s.tasks[i := s.tasks[i].(stage := moved.1)])
  }

  ghost function Run(bc: Bcrypt, s: State, actions: seq<Action>): State {
    if actions == [] then s else Step(bc, Run(bc, s, actions[..|actions| - 1]), actions[|actions| - 1])
  }

  const Start := State(map[], [])

  // ---- what every interleaving keeps -------------------------------------------------------

  /** A call for the user was made with this password. */
  ghost predicate Gave(s: State, id: UserId, given: Option<string>) {
    exists t :: t in s.tasks && match t.kind
      case Create(newId, dto) => newId == id && dto.password == given
      case Update(target, dto) => target == id && dto.password == Some(given)
      case OAuthSignIn(newId, _) => newId == id && given == None
      case _ => false
  }

  /** One hash of a password given for the user. */
  ghost predicate Settled(bc: Bcrypt, s: State, id: UserId, stored: Option<string>) {
    exists given :: Gave(s, id, given) && UserRuns.HashedOnce(bc, given, stored)
  }

  ghost predicate TaskOk(bc: Bcrypt, s: State, t: Task) {
    match t.stage
    case Held(id, row) => t.kind.Update? && t.kind.id == id && id in s.db && !row.deleted && Settled(bc, s, id, row.password)
    case Saving(id, row) =>
      id in s.db && !row.deleted && (Gave(s, id, row.password) || Settled(bc, s, id, row.password))
    case Inserting(id, row) => !row.deleted && Gave(s, id, row.password)
    case _ => true
  }

  ghost predicate Inv(bc: Bcrypt, s: State) {
    && DistinctEmails(s.db)
    && (forall id :: id in s.db ==> Settled(bc, s, id, s.db[id].password))
    && (forall t :: t in s.tasks ==> TaskOk(bc, s, t))
  }

  /** The calls made only get more. */
  ghost predicate Grows(s: State, s': State) {
    s.db.Keys <= s'.db.Keys && forall id, given :: Gave(s, id, given) ==> Gave(s', id, given)
  }

  lemma StepGrows(bc: Bcrypt, s: State, a: Action)
    ensures Grows(s, Step(bc, s, a))
  {
    var s' := Step(bc, s, a);
    forall t | t in s.tasks ensures exists t' :: t' in s'.tasks && t'.kind == t.kind {
      var k :| 0 <= k < |s.tasks| && s.tasks[k] == t;
      assert s'.tasks[k] in s'.tasks && s'.tasks[k].kind == t.kind;
    }
    forall id, given | Gave(s, id, given) ensures Gave(s', id, given) {
      hide Step;
      var t :| t in s.tasks && Gave(s.(tasks := [t]), id, given);
      var t' :| t' in s'.tasks && t'.kind == t.kind;
    }
  }

  lemma SettledGrows(bc: Bcrypt, s: State, s': State, t: Task)
    requires Grows(s, s')
    ensures forall id, stored :: Settled(bc, s, id, stored) ==> Settled(bc, s', id, stored)
    ensures TaskOk(bc, s, t) ==> TaskOk(bc, s', t)
  {
    hide Gave, UserRuns.HashedOnce;
  }

  /** What the hook makes of a password that was given, or settled before. */
  lemma HookSettles(bc: Bcrypt, s: State, id: UserId, password: Option<string>, salt: string)
    requires Sound(bc) && (Gave(s, id, password) || Settled(bc, s, id, password))
    ensures Settled(bc, s, id, Hooked(bc, password, salt))
  {
    if Gave(s, id, password) {
      UserRuns.HookHashesOnce(bc, password, salt);
    } else {
      var given :| Gave(s, id, given) && UserRuns.HashedOnce(bc, given, password);
      UserRuns.HookKeepsHashedOnce(bc, given, password, salt);
    }
  }

  lemma MoveSettles(bc: Bcrypt, s: State, t: Task, salt: string)
    requires Sound(bc) && TaskOk(bc, s, t)
    requires forall id :: id in s.db ==> Settled(bc, s, id, s.db[id].password)
    ensures var db := Moved(bc, s.db, t, salt).0;
            (forall id :: id in db ==> Settled(bc, s, id, db[id].password)) && (DistinctEmails(s.db) ==> DistinctEmails(db))
  {
    if t.stage.Saving? || t.stage.Inserting? { HookSettles(bc, s, t.stage.id, t.stage.row.password, salt); }
    hide Gave, Settled, Hooked, Fetch, Merged, Sound;
  }

  lemma MoveKeepsTask(bc: Bcrypt, s: State, t: Task, salt: string)
    requires t in s.tasks && TaskOk(bc, s, t)
    requires forall id :: id in s.db ==> Settled(bc, s, id, s.db[id].password)
    ensures var moved := Moved(bc, s.db, t, salt);
            TaskOk(bc, s, t.(stage := moved.1)) && s.db.Keys <= moved.0.Keys
  {
    hide Settled, UserRuns.HashedOnce, Hooked;
    if t.stage.Asked? && (t.kind.Create? || t.kind.OAuthSignIn?) {
      assert t.kind.Create? ==> Gave(s, t.kind.newId, t.kind.new'.password);
      assert t.kind.OAuthSignIn? ==> Gave(s, t.kind.newId, None);
    } else if t.kind.Update? && t.kind.change.password.Some? {
      assert Gave(s, t.kind.id, t.kind.change.password.value);
    }
    hide Gave;
  }

  lemma StepKeepsInv(bc: Bcrypt, s: State, a: Action)
    requires Sound(bc) && Inv(bc, s)
    ensures Inv(bc, Step(bc, s, a))
  {
    var s' := Step(bc, s, a);
    StepGrows(bc, s, a);
    forall t ensures TaskOk(bc, s, t) ==> TaskOk(bc, s', t) { SettledGrows(bc, s, s', t); }
    if a.Advance? && a.i < |s.tasks| {
      MoveSettles(bc, s, s.tasks[a.i], a.salt);
      MoveKeepsTask(bc, s, s.tasks[a.i], a.salt);
    }
    hide Settled, Moved, TaskOk, DistinctEmails;
    if a.Spawn? { NewTaskIsOk(bc, s', a); }
    SettledGrows(bc, s, s', Task(Remove(""), Asked));
  }

  lemma NewTaskIsOk(bc: Bcrypt, s: State, a: Action)
    requires a.Spawn?
    ensures TaskOk(bc, s, Task(a.kind, Asked))
  {}

  lemma {:induction false} RunKeepsInv(bc: Bcrypt, actions: seq<Action>)
    requires Sound(bc)
    ensures Inv(bc, Run(bc, Start, actions))
  {
    hide Step;
    if actions != [] {
      RunKeepsInv(bc, actions[..|actions| - 1]);
      StepKeepsInv(bc, Run(bc, Start, actions[..|actions| - 1]), actions[|actions| - 1]);
    }
  }

  /**
   * In every interleaving emails are pairwise distinct, soft-deleted rows included, although the
   * lookups of an email and the saves are apart; and each stored password is one hash of a
   * password given for that user, never a hash of a hash, although older ones may be written back.
   */
  lemma EmailsDistinctAndHashedOnce(bc: Bcrypt, actions: seq<Action>)
    requires Sound(bc)
    ensures var s := Run(bc, Start, actions);
            DistinctEmails(s.db) && forall id :: id in s.db ==> Settled(bc, s, id, s.db[id].password)
  {
    RunKeepsInv(bc, actions);
  }

  // ---- a call without interference is the whole call ---------------------------------------

  ghost function CallOf(bc: Bcrypt, db: Table, kind: Kind, salt: string): (Table, Result<UserId, Error>) {
    match kind
    case Create(id, dto) => CreateCall(bc, db, id, dto, salt)
    case Update(id, dto) => UpdateCall(bc, db, id, dto, salt)
    case SetStatus(id, status) => UpdateStatusCall(bc, db, id, status, salt)
    case Remove(id) => RemoveCall(db, id)
    case OAuthSignIn(id, profile) => OAuthCall(bc, db, id, profile, salt)
  }

  /** Three steps, one after the other, of a call that no other call interferes with do what the whole call does. */
  lemma UninterruptedCallIsTheCall(bc: Bcrypt, db: Table, kind: Kind, salt: string)
    ensures var t1 := Moved(bc, db, Task(kind, Asked), salt);
            var t2 := Moved(bc, t1.0, Task(kind, t1.1), salt);
            var t3 := Moved(bc, t2.0, Task(kind, t2.1), salt);
            t3.0 == CallOf(bc, db, kind, salt).0 && t3.1 == Over
  {
    hide Hooked;
  }
}
