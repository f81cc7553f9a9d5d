/**
 * Calls on users that save an entity fetched before: exactly when such a save can bring back a
 * removed user, a status or a password. What keeps a save from going through for ever is the
 * email it writes, if that is the email of a soft-deleted user who cannot come back either.
 */
module UserLateSaves {
  import opened Prelude
  import opened Users
  import UserRuns
  import opened UserRaces

  /** A call that has fetched a user and not yet saved it. */
  predicate Holding(t: Task) {
    t.stage.Held? || t.stage.Saving?
  }

  predicate Holds(t: Task, u: UserId) {
    Holding(t) && t.stage.id == u
  }

  /** The entity that such a call is going to save. */
  function Entity(t: Task): Row
    requires Holding(t)
  {
    if t.stage.Held? && t.kind.Update? then Merge(t.stage.row, t.kind.change) else t.stage.row
  }

  /** Another user of the set has the email. */
  ghost predicate Blocked(db: Table, gone: set<UserId>, u: UserId, email: string) {
    exists p :: p in gone && p in db && p != u && db[p].email == email
  }

  /** Removed users who keep each other from coming back: each call that holds one of them writes the email of another. */
  ghost predicate Stuck(s: State, gone: set<UserId>) {
    forall o :: o in gone ==>
      && o in s.db && s.db[o].deleted
      && forall t :: t in s.tasks && Holds(t, o) ==> Blocked(s.db, gone, o, Entity(t).email)
  }

  ghost predicate GoneForGood(s: State, u: UserId) {
    exists gone :: u in gone && Stuck(s, gone)
  }

  /** The email is that of another user who is gone for good. */
  ghost predicate TakenForGood(s: State, u: UserId, email: string) {
    exists p :: p in s.db && p != u && s.db[p].email == email && GoneForGood(s, p)
  }

  // ---- the stuck stay stuck ----------------------------------------------------------------

  lemma MoveKeepsStuck(bc: Bcrypt, s: State, t: Task, salt: string, gone: set<UserId>)
    requires t in s.tasks && TaskOk(bc, s, t) && Stuck(s, gone)
    ensures var moved := Moved(bc, s.db, t, salt);
            forall o :: o in gone ==>
              && o in moved.0 && moved.0[o] == s.db[o]
              && (Holds(t.(stage := moved.1), o) ==> Blocked(s.db, gone, o, Entity(t.(stage := moved.1)).email))
  {
    hide Gave, Settled, Hooked;
    forall o | o in gone && t.stage.Saving? && t.stage.id == o ensures UsedByOther(s.db, o, t.stage.row.email) {
      assert Holds(t, o);
    }
    forall o | o in gone && t.stage.Held? && t.stage.id == o ensures Blocked(s.db, gone, o, Entity(t).email) {
      assert Holds(t, o);
    }
    hide Blocked;
  }

  lemma StepKeepsStuck(bc: Bcrypt, s: State, a: Action, gone: set<UserId>)
    requires Inv(bc, s) && Stuck(s, gone)
    ensures Stuck(Step(bc, s, a), gone)
    ensures forall o :: o in gone ==> Step(bc, s, a).db[o] == s.db[o]
  {
    var s' := Step(bc, s, a);
    if a.Advance? && a.i < |s.tasks| { MoveKeepsStuck(bc, s, s.tasks[a.i], a.salt, gone); }
    assert forall o :: o in gone ==> o in s'.db && s'.db[o] == s.db[o];
    forall o, t | o in gone && t in s'.tasks && Holds(t, o) ensures Blocked(s'.db, gone, o, Entity(t).email) {
      assert Blocked(s.db, gone, o, Entity(t).email) by {
        hide Blocked, Moved;
        assert t in s.tasks || (a.Advance? && a.i < |s.tasks| && t == s'.tasks[a.i]);
      }
    }
  }

  lemma {:induction false} StuckStay(bc: Bcrypt, s: State, actions: seq<Action>, gone: set<UserId>)
    requires Sound(bc) && Inv(bc, s) && Stuck(s, gone)
    ensures var s' := Run(bc, s, actions);
            Inv(bc, s') && Stuck(s', gone) && forall o :: o in gone ==> s'.db[o] == s.db[o]
  {
    hide Step, Inv, Sound;
    if actions != [] {
      var init, a := actions[..|actions| - 1], actions[|actions| - 1];
      StuckStay(bc, s, init, gone);
      StepKeepsInv(bc, Run(bc, s, init), a);
      StepKeepsStuck(bc, Run(bc, s, init), a, gone);
    }
  }

  /** All who are gone for good keep each other from coming back. */
  ghost function AllGone(s: State): set<UserId> {
    set o | o in s.db && GoneForGood(s, o)
  }

  lemma AllGoneAreStuck(s: State)
    ensures Stuck(s, AllGone(s))
    ensures forall gone :: Stuck(s, gone) ==> gone <= AllGone(s)
  {
    var all := AllGone(s);
    forall gone, o | Stuck(s, gone) && o in gone ensures o in all {}
    forall o, t | o in all && t in s.tasks && Holds(t, o) ensures Blocked(s.db, all, o, Entity(t).email) {
      var gone :| o in gone && Stuck(s, gone);
      assert gone <= all;
    }
  }

  // ---- columns that are not there do not come back by themselves ---------------------------

  /** What may come back in a user's row: an ACTIVE live user, or a stored password. */
  datatype Want = ACTIVE_AGAIN | PASSWORD(stored: string)

  predicate Has(want: Want, row: Row) {
    match want
    case ACTIVE_AGAIN => !row.deleted && row.status == ACTIVE
    case PASSWORD(stored) => row.password == Some(stored)
  }

  /** Saving the entity of a live user makes the row have it, with this salt. */
  predicate Yields(bc: Bcrypt, want: Want, row: Row, salt: string) {
    match want
    case ACTIVE_AGAIN => row.status == ACTIVE
    case PASSWORD(stored) => Hooked(bc, row.password, salt) == Some(stored)
  }

  /** A call that asks for it, whatever the row is that it will fetch. */
  ghost predicate Asks(bc: Bcrypt, want: Want, kind: Kind, u: UserId) {
    match want
    case ACTIVE_AGAIN =>
      (kind.SetStatus? && kind.id == u && kind.status == ACTIVE)
      || (kind.Update? && kind.id == u && kind.change.status == Some(ACTIVE))
    case PASSWORD(stored) =>
      kind.Update? && kind.id == u && kind.change.password.Some?
      && exists salt :: Hooked(bc, kind.change.password.value, salt) == Some(stored)
  }

  /** A call under way that will save it for the user, if it gets that far. */
  ghost predicate Restores(bc: Bcrypt, want: Want, t: Task, u: UserId) {
    if Holds(t, u) then exists salt :: Yields(bc, want, Entity(t), salt)
    else t.stage.Asked? && Asks(bc, want, t.kind, u)
  }

  /** Nothing makes it certain that the call is refused. */
  ghost predicate Open(s: State, t: Task, u: UserId) {
    if Holds(t, u) then !TakenForGood(s, u, Entity(t).email)
    else
      && !GoneForGood(s, u)
      && (t.kind.Update? && t.kind.change.email.Some? ==> !TakenForGood(s, u, t.kind.change.email.value))
  }

  /** The user lacks it, and all calls that could save it are blocked by users of the set. */
  ghost predicate KeptOut(bc: Bcrypt, s: State, want: Want, u: UserId, gone: set<UserId>) {
    && u in s.db && !Has(want, s.db[u]) && Stuck(s, gone)
    && forall t :: t in s.tasks && Restores(bc, want, t, u) ==> Refused(s.db, gone, t, u)
  }

  ghost predicate Refused(db: Table, gone: set<UserId>, t: Task, u: UserId) {
    if Holds(t, u) then Blocked(db, gone, u, Entity(t).email)
    else u in gone || (t.kind.Update? && t.kind.change.email.Some? && Blocked(db, gone, u, t.kind.change.email.value))
  }

  /** No call for it is made. */
  ghost predicate NoneAsked(bc: Bcrypt, want: Want, actions: seq<Action>, u: UserId) {
    forall a :: a in actions && a.Spawn? ==> !Asks(bc, want, a.kind, u)
  }

  lemma SettledColumns(bc: Bcrypt, s: State, want: Want, u: UserId, salt: string)
    requires Sound(bc) && u in s.db && Settled(bc, s, u, s.db[u].password) && !Has(want, s.db[u])
    ensures Hooked(bc, s.db[u].password, salt) == s.db[u].password
    ensures Live(s.db, u) ==> !Yields(bc, want, s.db[u], salt)
  {
    var given :| Gave(s, u, given) && UserRuns.HashedOnce(bc, given, s.db[u].password);
    UserRuns.HookKeepsHashedOnce(bc, given, s.db[u].password, salt);
  }

  /** A row that is fetched does not have it, so only a call that asks for it can come to save it. */
  lemma FetchKeepsOut(bc: Bcrypt, s: State, want: Want, u: UserId, gone: set<UserId>, t: Task)
    requires Sound(bc) && KeptOut(bc, s, want, u, gone) && Settled(bc, s, u, s.db[u].password)
    requires t in s.tasks && t.stage.Asked?
    ensures var t' := t.(stage := Fetch(s.db, t.kind));
            Restores(bc, want, t', u) ==> Refused(s.db, gone, t', u)
  {
    forall salt ensures Hooked(bc, s.db[u].password, salt) == s.db[u].password
                     && (Live(s.db, u) ==> !Yields(bc, want, s.db[u], salt)) {
      SettledColumns(bc, s, want, u, salt);
    }
    assert Restores(bc, want, t, u) ==> Refused(s.db, gone, t, u);
    hide Settled, Blocked, Hooked;
  }

  lemma MoveKeepsOut(bc: Bcrypt, s: State, want: Want, u: UserId, gone: set<UserId>, t: Task, salt: string)
    requires Sound(bc) && KeptOut(bc, s, want, u, gone) && Settled(bc, s, u, s.db[u].password)
    requires t in s.tasks && TaskOk(bc, s, t)
    ensures var moved, t' := Moved(bc, s.db, t, salt), t.(stage := Moved(bc, s.db, t, salt).1);
            && u in moved.0 && !Has(want, moved.0[u])
            && (Restores(bc, want, t', u) ==> Refused(s.db, gone, t', u))
  {
    var t' := t.(stage := Moved(bc, s.db, t, salt).1);
    assert Restores(bc, want, t, u) ==> Refused(s.db, gone, t, u);
    if t.stage.Asked? {
      FetchKeepsOut(bc, s, want, u, gone, t);
    } else if t.stage.Saving? && t.stage.id == u {
      if Yields(bc, want, Entity(t), salt) { assert Blocked(s.db, gone, u, Entity(t).email); }
      hide Settled, Hooked, Stuck;
    } else {
      if Holds(t, u) { assert Merged(s.db, u, t.stage.row, t.kind.change).Saving? ==> t'.stage == Saving(u, Entity(t)); }
      hide Settled, Blocked, Hooked, Stuck, UsedByOther;
    }
  }

  lemma StepKeepsOut(bc: Bcrypt, s: State, want: Want, u: UserId, gone: set<UserId>, a: Action)
    requires Sound(bc) && Inv(bc, s) && KeptOut(bc, s, want, u, gone) && (a.Spawn? ==> !Asks(bc, want, a.kind, u))
    ensures KeptOut(bc, Step(bc, s, a), want, u, gone)
  {
    var s' := Step(bc, s, a);
    StepKeepsStuck(bc, s, a, gone);
    if a.Advance? && a.i < |s.tasks| { MoveKeepsOut(bc, s, want, u, gone, s.tasks[a.i], a.salt); }
    hide Inv, Stuck, Moved, Restores, Has;
    forall t | t in s'.tasks && Restores(bc, want, t, u) ensures Refused(s'.db, gone, t, u) {
      if a.Spawn? && t !in s.tasks { assert !Restores(bc, want, Task(a.kind, Asked), u) by { NewDoesNotRestore(bc, want, a.kind, u); } }
      RefusedStays(s.db, s'.db, gone, t, u);
    }
  }

  lemma NewDoesNotRestore(bc: Bcrypt, want: Want, kind: Kind, u: UserId)
    ensures Restores(bc, want, Task(kind, Asked), u) <==> Asks(bc, want, kind, u)
  {}

  lemma RefusedStays(db: Table, db': Table, gone: set<UserId>, t: Task, u: UserId)
    requires forall o :: o in gone ==> o in db && o in db' && db'[o] == db[o]
    ensures Refused(db, gone, t, u) ==> Refused(db', gone, t, u)
  {}

  lemma {:induction false} StaysKeptOut(bc: Bcrypt, s: State, want: Want, u: UserId, gone: set<UserId>, actions: seq<Action>)
    requires Sound(bc) && Inv(bc, s) && KeptOut(bc, s, want, u, gone) && NoneAsked(bc, want, actions, u)
    ensures var s' := Run(bc, s, actions); Inv(bc, s') && KeptOut(bc, s', want, u, gone)
  {
    hide Step, Inv, KeptOut, Sound, Asks;
    if actions != [] {
      var init, a := actions[..|actions| - 1], actions[|actions| - 1];
      assert a in actions;
      StaysKeptOut(bc, s, want, u, gone, init);
      StepKeepsInv(bc, Run(bc, s, init), a);
      StepKeepsOut(bc, Run(bc, s, init), want, u, gone, a);
    }
  }

  // ---- runs that let a save through --------------------------------------------------------

  /** Besides finishing calls, users are only given other emails. */
  ghost predicate Renames(actions: seq<Action>) {
    forall a :: a in actions && a.Spawn? ==>
      a.kind.Update? && a.kind.change.password.None? && a.kind.change.status.None?
  }

  ghost predicate RunsTo(bc: Bcrypt, s: State, actions: seq<Action>, m: State) {
    Renames(actions) && Run(bc, s, actions) == m
  }

  ghost predicate Leads(bc: Bcrypt, s: State, m: State) {
    exists actions :: RunsTo(bc, s, actions, m)
  }

  lemma LeadsNowhere(bc: Bcrypt, s: State)
    ensures Leads(bc, s, s)
  {
    assert RunsTo(bc, s, [], s);
  }

  lemma LeadsOn(bc: Bcrypt, s: State, k: State, a: Action)
    requires Leads(bc, s, k) && Renames([a])
    ensures Leads(bc, s, Step(bc, k, a))
  {
    hide Step;
    var actions :| RunsTo(bc, s, actions, k);
    var more := actions + [a];
    assert more[..|more| - 1] == actions;
    assert a in [a];
    assert RunsTo(bc, s, more, Step(bc, k, a));
  }

  /** A call made and finished on its own. */
  ghost function Whole(bc: Bcrypt, s: State, kind: Kind): State {
    State(CallOf(bc, s.db, kind, "").0, s.tasks + [Task(kind, Over)])
  }

  lemma WholeSteps(bc: Bcrypt, s: State, kind: Kind)
    ensures var a := Advance(|s.tasks|, "");
            Step(bc, Step(bc, Step(bc, Step(bc, s, Spawn(kind)), a), a), a) == Whole(bc, s, kind)
  {
    var a, tasks := Advance(|s.tasks|, ""), s.tasks;
    UninterruptedCallIsTheCall(bc, s.db, kind, "");
    var t1 := Moved(bc, s.db, Task(kind, Asked), "");
    var t2 := Moved(bc, t1.0, Task(kind, t1.1), "");
    hide Moved, CallOf;
    assert Step(bc, s, Spawn(kind)) == State(s.db, tasks + [Task(kind, Asked)]);
    assert Step(bc, State(s.db, tasks + [Task(kind, Asked)]), a) == State(t1.0, tasks + [Task(kind, t1.1)]);
    assert Step(bc, State(t1.0, tasks + [Task(kind, t1.1)]), a) == State(t2.0, tasks + [Task(kind, t2.1)]);
    assert Step(bc, State(t2.0, tasks + [Task(kind, t2.1)]), a) == Whole(bc, s, kind);
  }

  lemma LeadsToWhole(bc: Bcrypt, s: State, k: State, kind: Kind)
    requires Sound(bc) && Leads(bc, s, k) && Inv(bc, k) && Renames([Spawn(kind)])
    ensures Leads(bc, s, Whole(bc, k, kind)) && Inv(bc, Whole(bc, k, kind))
  {
    hide Inv, Leads, Step, Whole;
    var a := Advance(|k.tasks|, "");
    WholeSteps(bc, k, kind);
    var k1 := Step(bc, k, Spawn(kind));
    var k2 := Step(bc, k1, a);
    var k3 := Step(bc, k2, a);
    LeadsOn(bc, s, k, Spawn(kind));
    LeadsOn(bc, s, k1, a);
    LeadsOn(bc, s, k2, a);
    LeadsOn(bc, s, k3, a);
    StepKeepsInv(bc, k, Spawn(kind));
    StepKeepsInv(bc, k1, a);
    StepKeepsInv(bc, k2, a);
    StepKeepsInv(bc, k3, a);
  }

  ghost function Removed(s: State): set<UserId> {
    set o | o in s.db && s.db[o].deleted
  }

  /** No one was removed on the way, and the calls that hold those still removed are still there. */
  ghost predicate Later(s: State, m: State) {
    && s.db.Keys == m.db.Keys
    && (forall o :: o in m.db && m.db[o].deleted ==> s.db[o] == m.db[o])
    && (forall t, o :: t in s.tasks && Holds(t, o) && o in m.db && m.db[o].deleted ==> t in m.tasks)
  }

  lemma LaterJoins(s: State, k: State, m: State)
    requires Later(s, k) && Later(k, m)
    ensures Later(s, m)
  {
    hide Holds;
  }

  lemma StuckBefore(s: State, m: State, gone: set<UserId>)
    requires Later(s, m) && Stuck(m, gone)
    ensures Stuck(s, gone)
  {
    forall o, t | o in gone && t in s.tasks && Holds(t, o) ensures Blocked(s.db, gone, o, Entity(t).email) {
      assert Blocked(m.db, gone, o, Entity(t).email);
    }
  }

  ghost function Emails(db: Table): set<string> {
    set o | o in db :: db[o].email
  }

  /** A live user is given an email that no one has. */
  lemma Rename(bc: Bcrypt, s: State, k: State, o: UserId) returns (m: State, email: string)
    requires Sound(bc) && Leads(bc, s, k) && Inv(bc, k) && Live(k.db, o)
    ensures Leads(bc, s, m) && Inv(bc, m) && Later(k, m)
    ensures (forall p :: p in k.db ==> k.db[p].email != email) && m.db == k.db[o := k.db[o].(email := email)]
    ensures |m.tasks| == |k.tasks| + 1 && m.tasks[..|k.tasks|] == k.tasks
  {
    hide Inv, Leads, UpdateCall, Sound, Later;
    email := Unused(Emails(k.db));
    var kind := Update(o, UpdateUserDto(Some(email), None, None, None));
    forall p | p in k.db ensures k.db[p].email != email { assert k.db[p].email in Emails(k.db); }
    LeadsToWhole(bc, s, k, kind);
    RenamedRow(bc, k, o, email);
    m := Whole(bc, k, kind);
    LaterRenamed(k, m, o, email);
  }

  lemma LaterRenamed(k: State, m: State, o: UserId, email: string)
    requires Live(k.db, o) && m.db == k.db[o := k.db[o].(email := email)]
    requires |m.tasks| == |k.tasks| + 1 && m.tasks[..|k.tasks|] == k.tasks
    ensures Later(k, m) && Removed(m) == Removed(k)
  {
    hide Holds;
    assert forall t :: t in k.tasks ==> t in m.tasks;
  }

  lemma RenamedRow(bc: Bcrypt, k: State, o: UserId, email: string)
    requires Sound(bc) && Inv(bc, k) && Live(k.db, o) && forall p :: p in k.db ==> k.db[p].email != email
    ensures UpdateCall(bc, k.db, o, UpdateUserDto(Some(email), None, None, None), "").0 == k.db[o := k.db[o].(email := email)]
  {
    var given :| Gave(k, o, given) && UserRuns.HashedOnce(bc, given, k.db[o].password);
    UserRuns.HookKeepsHashedOnce(bc, given, k.db[o].password, "");
    hide Inv, Hooked;
  }

  /** Whoever is live with the email gets another one. */
  lemma FreeEmail(bc: Bcrypt, s: State, k: State, email: string) returns (m: State)
    requires Sound(bc) && Leads(bc, s, k) && Inv(bc, k)
    ensures Leads(bc, s, m) && Inv(bc, m) && Later(k, m) && Removed(m) == Removed(k)
    ensures !LiveEmail(m.db, email)
    ensures |k.tasks| <= |m.tasks| && m.tasks[..|k.tasks|] == k.tasks
  {
    m := k;
    assert Later(k, k);
    if LiveEmail(k.db, email) {
      assert DistinctEmails(k.db);
      hide Inv, Leads, Later, Sound, Removed;
      var o := ByEmail(k.db, email);
      var other;
      m, other := Rename(bc, s, k, o);
      LaterRenamed(k, m, o, other);
    }
  }

  /** The call holds a user, and no removed other has the email it writes. */
  ghost predicate Free(s: State, i: nat) {
    && i < |s.tasks| && Holding(s.tasks[i])
    && forall p :: p in s.db && s.db[p].deleted && p != s.tasks[i].stage.id ==> s.db[p].email != Entity(s.tasks[i]).email
  }

  /** Only task i and the row it holds have changed. */
  ghost predicate SavedOne(bc: Bcrypt, k: State, m: State, i: nat, salt: string)
    requires i < |k.tasks| && Holding(k.tasks[i])
  {
    var o, row := k.tasks[i].stage.id, Entity(k.tasks[i]);
    && m.db == k.db[o := row.(password := Hooked(bc, row.password, salt))]
    && |m.tasks| == |k.tasks| && forall j :: 0 <= j < |k.tasks| && j != i ==> m.tasks[j] == k.tasks[j]
  }

  lemma SavingStep(bc: Bcrypt, k: State, i: nat, salt: string)
    requires Free(k, i) && k.tasks[i].stage.Saving? && !LiveEmail(k.db, Entity(k.tasks[i]).email)
    ensures SavedOne(bc, k, Step(bc, k, Advance(i, salt)), i, salt)
  {
    hide Hooked;
  }

  lemma HeldStep(bc: Bcrypt, k: State, i: nat, salt: string)
    requires Free(k, i) && k.tasks[i].stage.Held? && TaskOk(bc, k, k.tasks[i]) && !LiveEmail(k.db, Entity(k.tasks[i]).email)
    ensures var t := k.tasks[i];
            Step(bc, k, Advance(i, salt)) == k.(tasks := k.tasks[i := t.(stage := Saving(t.stage.id, Entity(t)))])
  {
    hide Gave, Settled;
  }

  /** When no live row has the email, a free call can be finished. */
  lemma Finish(bc: Bcrypt, s: State, k: State, i: nat, salt: string) returns (m: State)
    requires Leads(bc, s, k) && Inv(bc, k) && Sound(bc) && Free(k, i) && !LiveEmail(k.db, Entity(k.tasks[i]).email)
    ensures Leads(bc, s, m) && Inv(bc, m) && SavedOne(bc, k, m, i, salt)
  {
    var t, a := k.tasks[i], Advance(i, salt);
    assert TaskOk(bc, k, t);
    hide Inv, Leads, Sound, TaskOk, Step, Hooked;
    m := k;
    if t.stage.Held? {
      HeldStep(bc, k, i, salt);
      LeadsOn(bc, s, k, a);
      StepKeepsInv(bc, k, a);
      m := Step(bc, k, a);
    }
    SavingStep(bc, m, i, salt);
    LeadsOn(bc, s, m, a);
    StepKeepsInv(bc, m, a);
    m := Step(bc, m, a);
  }

  lemma LaterSaved(bc: Bcrypt, k: State, m: State, i: nat, salt: string)
    requires i < |k.tasks| && Holding(k.tasks[i]) && SavedOne(bc, k, m, i, salt)
    requires k.tasks[i].stage.id in k.db && !Entity(k.tasks[i]).deleted
    ensures Later(k, m) && Removed(m) == Removed(k) - {k.tasks[i].stage.id}
  {
    hide Entity, Hooked;
    forall t, o | t in k.tasks && Holds(t, o) && o in m.db && m.db[o].deleted ensures t in m.tasks {
      var j :| 0 <= j < |k.tasks| && k.tasks[j] == t;
      assert m.tasks[j] == t;
    }
  }

  /** A call that no removed user blocks can be finished. */
  lemma LetThrough(bc: Bcrypt, s: State, k: State, i: nat, salt: string) returns (m: State)
    requires Sound(bc) && Leads(bc, s, k) && Inv(bc, k) && Free(k, i)
    ensures Leads(bc, s, m) && Inv(bc, m) && Later(k, m)
    ensures var t, o := k.tasks[i], k.tasks[i].stage.id;
            && o in m.db && !m.db[o].deleted && Removed(m) == Removed(k) - {o}
            && m.db[o] == Entity(t).(password := Hooked(bc, Entity(t).password, salt))
    ensures |k.tasks| <= |m.tasks| && forall j :: 0 <= j < |k.tasks| && j != i ==> m.tasks[j] == k.tasks[j]
  {
    var t := k.tasks[i];
    assert Holding(t) by { assert Free(k, i); }
    hide Inv, Leads, Sound, Entity, Hooked, Later, Removed, Free, LiveEmail;
    var f := FreeEmail(bc, s, k, Entity(t).email);
    assert forall j :: 0 <= j < |k.tasks| ==> f.tasks[j] == f.tasks[..|k.tasks|][j];
    StillFree(k, f, i);
    m := Finish(bc, s, f, i, salt);
    HolderIsLive(bc, f, t);
    LaterSaved(bc, f, m, i, salt);
    LaterJoins(k, f, m);
  }

  lemma HolderIsLive(bc: Bcrypt, k: State, t: Task)
    requires Inv(bc, k) && t in k.tasks && Holding(t)
    ensures t.stage.id in k.db && !Entity(t).deleted
  {
    assert TaskOk(bc, k, t);
  }

  lemma StillFree(k: State, f: State, i: nat)
    requires Free(k, i) && Later(k, f) && i < |f.tasks| && f.tasks[i] == k.tasks[i]
    ensures Free(f, i)
  {
    hide Entity;
  }

  lemma SomeoneFree(k: State) returns (n: nat)
    requires !Stuck(k, Removed(k))
    ensures Free(k, n) && k.tasks[n].stage.id in Removed(k)
  {
    var o, t :| o in Removed(k) && t in k.tasks && Holds(t, o) && !Blocked(k.db, Removed(k), o, Entity(t).email);
    n :| 0 <= n < |k.tasks| && k.tasks[n] == t;
    hide Entity;
  }

  lemma LaterItself(k: State)
    ensures Later(k, k)
  {}

  /**
   * One removed user after another can be brought back, until those left keep each other from
   * coming back, or the given call is free.
   */
  lemma {:induction false} BringBack(bc: Bcrypt, s: State, k: State, i: Option<nat>) returns (m: State)
    requires Sound(bc) && Leads(bc, s, k) && Inv(bc, k) && (i.Some? ==> i.value < |k.tasks|)
    ensures Leads(bc, s, m) && Inv(bc, m) && Later(k, m)
    ensures i.Some? ==> i.value < |m.tasks| && m.tasks[i.value] == k.tasks[i.value]
    ensures Stuck(m, Removed(m)) || (i.Some? && Free(m, i.value))
    decreases |Removed(k)|
  {
    hide Inv, Leads, Later, Sound, Entity, Stuck, Removed, Hooked;
    m := k;
    LaterItself(k);
    if !Stuck(k, Removed(k)) {
      var n := SomeoneFree(k);
      if i != Some(n) {
        var next := LetThrough(bc, s, k, n, "");
        hide Free;
        assert |Removed(next)| < |Removed(k)|;
        m := BringBack(bc, s, next, i);
        LaterJoins(k, next, m);
      }
    }
  }

  // ---- removed users -----------------------------------------------------------------------

  lemma RowsStay(bc: Bcrypt, s: State, actions: seq<Action>, u: UserId)
    requires Sound(bc) && Inv(bc, s) && GoneForGood(s, u)
    ensures u in s.db && u in Run(bc, s, actions).db && Run(bc, s, actions).db[u] == s.db[u]
    ensures Inv(bc, Run(bc, s, actions))
  {
    var gone :| u in gone && Stuck(s, gone);
    StuckStay(bc, s, actions, gone);
  }

  lemma Return(bc: Bcrypt, s: State, u: UserId) returns (m: State)
    requires Sound(bc) && Inv(bc, s) && u in s.db && !GoneForGood(s, u)
    ensures Leads(bc, s, m) && Inv(bc, m) && Live(m.db, u) && Later(s, m)
  {
    LeadsNowhere(bc, s);
    m := BringBack(bc, s, s, None);
    if u in Removed(m) { StuckBefore(s, m, Removed(m)); }
  }

  /**
   * A removed user can become live again, under some interleaving, exactly when there is no set of
   * removed users around it whose members keep each other from coming back; and if there is, the
   * row never changes again.
   */
  lemma RemovedUserReturnsExactly(bc: Bcrypt, s: State, u: UserId)
    requires Sound(bc) && Inv(bc, s) && u in s.db && s.db[u].deleted
    ensures (exists actions :: Live(Run(bc, s, actions).db, u)) <==> !GoneForGood(s, u)
    ensures GoneForGood(s, u) ==> forall actions :: u in Run(bc, s, actions).db && Run(bc, s, actions).db[u] == s.db[u]
  {
    hide Inv, Sound, Run, GoneForGood;
    if GoneForGood(s, u) {
      forall actions ensures u in Run(bc, s, actions).db && Run(bc, s, actions).db[u] == s.db[u] {
        RowsStay(bc, s, actions, u);
      }
    } else {
      var m := Return(bc, s, u);
      var actions := RunThere(bc, s, m);
      assert Live(Run(bc, s, actions).db, u);
    }
  }

  /** The plain case: a removed user whom no call under way has fetched is gone for good. */
  lemma UnheldIsGone(s: State, u: UserId)
    requires u in s.db && s.db[u].deleted && forall t :: t in s.tasks ==> !Holds(t, u)
    ensures GoneForGood(s, u)
  {
    assert Stuck(s, {u});
  }

  predicate HeldByOther(db: Table, u: UserId, email: string) {
    exists v :: v in db && v != u && db[v].email == email
  }

  lemma {:induction false} RunsJoin(bc: Bcrypt, s: State, a: seq<Action>, b: seq<Action>)
    ensures Run(bc, s, a + b) == Run(bc, Run(bc, s, a), b)
  {
    hide Step;
    if b == [] {
      assert a + b == a;
    } else {
      RunsJoin(bc, s, a, b[..|b| - 1]);
      assert (a + b)[..|a + b| - 1] == a + b[..|b| - 1];
    }
  }

  lemma RunOfOne(bc: Bcrypt, s: State, actions: seq<Action>, a: Action)
    ensures Run(bc, s, actions + [a]) == Step(bc, Run(bc, s, actions), a) && Run(bc, s, []) == s
  {
    assert (actions + [a])[..|actions|] == actions;
  }

  /** The actions of a call made and finished on its own as the n-th call. */
  function CallRun(kind: Kind, n: nat): seq<Action> {
    [] + [Spawn(kind)] + [Advance(n, "")] + [Advance(n, "")] + [Advance(n, "")]
  }

  lemma CallRunIsWhole(bc: Bcrypt, s: State, kind: Kind)
    ensures Run(bc, s, CallRun(kind, |s.tasks|)) == Whole(bc, s, kind)
  {
    var a := Advance(|s.tasks|, "");
    WholeSteps(bc, s, kind);
    hide Step, Run, Whole;
    RunOfOne(bc, s, [], Spawn(kind));
    RunOfOne(bc, s, [] + [Spawn(kind)], a);
    RunOfOne(bc, s, [] + [Spawn(kind)] + [a], a);
    RunOfOne(bc, s, [] + [Spawn(kind)] + [a] + [a], a);
  }

  /** An email that no row has can be taken by a new user. */
  lemma Take(bc: Bcrypt, s: State, m: State, email: string) returns (actions: seq<Action>)
    requires Leads(bc, s, m) && forall p :: p in m.db ==> m.db[p].email != email
    ensures var v := Unused(m.db.Keys);
            v in Run(bc, s, actions).db && Run(bc, s, actions).db[v].email == email && v !in m.db
  {
    var before :| RunsTo(bc, s, before, m);
    var v := Unused(m.db.Keys);
    var kind := Create(v, CreateUserDto(email, None, None, ""));
    assert CreateCall(bc, m.db, v, kind.new', "").1.Ok?;
    CallRunIsWhole(bc, m, kind);
    RunsJoin(bc, s, before, CallRun(kind, |m.tasks|));
    actions := before + CallRun(kind, |m.tasks|);
  }

  lemma RunThere(bc: Bcrypt, s: State, m: State) returns (actions: seq<Action>)
    requires Leads(bc, s, m)
    ensures Renames(actions) && Run(bc, s, actions) == m
  {
    actions :| RunsTo(bc, s, actions, m);
  }

  lemma Freeing(bc: Bcrypt, s: State, u: UserId) returns (actions: seq<Action>)
    requires Sound(bc) && Inv(bc, s) && u in s.db && !GoneForGood(s, u)
    ensures HeldByOther(Run(bc, s, actions).db, u, s.db[u].email)
  {
    var email := s.db[u].email;
    var m := Return(bc, s, u);
    hide Inv, Sound, Run, GoneForGood, Leads, Later;
    if HeldByOther(m.db, u, email) {
      actions := RunThere(bc, s, m);
    } else {
      var f := GiveUp(bc, s, m, u, email);
      actions := Take(bc, s, f, email);
    }
  }

  /** The one user who may have the email gets another one. */
  lemma GiveUp(bc: Bcrypt, s: State, m: State, u: UserId, email: string) returns (f: State)
    requires Sound(bc) && Leads(bc, s, m) && Inv(bc, m) && Live(m.db, u) && !HeldByOther(m.db, u, email)
    ensures Leads(bc, s, f) && u in f.db && forall p :: p in f.db ==> f.db[p].email != email
  {
    hide Inv, Sound, Leads, Later;
    f := m;
    if m.db[u].email == email {
      var other;
      f, other := Rename(bc, s, m, u);
    }
  }

  /**
   * The email of a removed user can come to be another user's exactly when the removed user can
   * come back: a late save restores the row, and its email can then be changed and taken.
   */
  lemma RemovedEmailIsFreedExactly(bc: Bcrypt, s: State, u: UserId)
    requires Sound(bc) && Inv(bc, s) && u in s.db && s.db[u].deleted
    ensures (exists actions :: HeldByOther(Run(bc, s, actions).db, u, s.db[u].email)) <==> !GoneForGood(s, u)
  {
    hide Inv, Sound, Run, GoneForGood, HeldByOther;
    if GoneForGood(s, u) {
      forall actions ensures !HeldByOther(Run(bc, s, actions).db, u, s.db[u].email) {
        RowsStay(bc, s, actions, u);
        InvDistinct(bc, Run(bc, s, actions));
        NotHeldByOther(Run(bc, s, actions).db, u);
      }
    } else {
      var actions := Freeing(bc, s, u);
    }
  }

  lemma NotHeldByOther(db: Table, u: UserId)
    requires DistinctEmails(db) && u in db
    ensures !HeldByOther(db, u, db[u].email)
  {}

  lemma InvDistinct(bc: Bcrypt, s: State)
    requires Inv(bc, s)
    ensures DistinctEmails(s.db)
  {}

  // ---- columns that come back --------------------------------------------------------------

  ghost predicate Regains(bc: Bcrypt, s: State, want: Want, actions: seq<Action>, u: UserId) {
    && NoneAsked(bc, want, actions, u)
    && u in Run(bc, s, actions).db && Has(want, Run(bc, s, actions).db[u])
  }

  lemma RenamesAskNothing(bc: Bcrypt, want: Want, actions: seq<Action>, u: UserId)
    requires Renames(actions)
    ensures NoneAsked(bc, want, actions, u)
  {}

  /** A call that holds the user can be finished, unless the email it writes is taken for good. */
  lemma HolderRestores(bc: Bcrypt, s: State, want: Want, u: UserId, i: nat) returns (m: State)
    requires Sound(bc) && Inv(bc, s) && u in s.db && i < |s.tasks|
    requires Holds(s.tasks[i], u) && Restores(bc, want, s.tasks[i], u) && Open(s, s.tasks[i], u)
    ensures Leads(bc, s, m) && u in m.db && Has(want, m.db[u])
  {
    var t := s.tasks[i];
    var salt :| Yields(bc, want, Entity(t), salt);
    HolderIsLive(bc, s, t);
    hide Inv, Sound, Entity, Leads, Hooked;
    assert Leads(bc, s, s) by { LeadsNowhere(bc, s); }
    var k := BringBack(bc, s, s, Some(i));
    if Stuck(k, Removed(k)) { NotTaken(s, k, i); }
    hide Stuck, Removed, Free, Later;
    m := LetThrough(bc, s, k, i, salt);
  }

  lemma NotTaken(s: State, k: State, i: nat)
    requires Later(s, k) && Stuck(k, Removed(k)) && i < |k.tasks| && Holding(k.tasks[i])
    requires !TakenForGood(s, k.tasks[i].stage.id, Entity(k.tasks[i]).email)
    ensures Free(k, i)
  {
    StuckBefore(s, k, Removed(k));
    hide Entity;
    forall p | p in k.db && k.db[p].deleted ensures GoneForGood(s, p) { assert p in Removed(k); }
  }

  lemma Fetches(bc: Bcrypt, s: State, k: State, i: nat) returns (f: State)
    requires Sound(bc) && Leads(bc, s, k) && Inv(bc, k) && i < |k.tasks| && k.tasks[i].stage.Asked?
    ensures Leads(bc, s, f) && Inv(bc, f) && f.db == k.db && |f.tasks| == |k.tasks|
    ensures f.tasks[i] == k.tasks[i].(stage := Fetch(k.db, k.tasks[i].kind))
  {
    hide Inv, Sound, Leads, Fetch;
    f := Step(bc, k, Advance(i, ""));
    LeadsOn(bc, s, k, Advance(i, ""));
    StepKeepsInv(bc, k, Advance(i, ""));
  }

  lemma LiveWhenBack(s: State, k: State, u: UserId)
    requires Later(s, k) && Stuck(k, Removed(k)) && u in s.db && !GoneForGood(s, u)
    ensures Live(k.db, u)
  {
    if u in Removed(k) { StuckBefore(s, k, Removed(k)); }
  }

  /** A call for it that has not fetched yet can be finished, once the user is live. */
  lemma AskerRestores(bc: Bcrypt, s: State, want: Want, u: UserId, i: nat) returns (m: State)
    requires Sound(bc) && Inv(bc, s) && u in s.db && i < |s.tasks|
    requires s.tasks[i].stage.Asked? && Asks(bc, want, s.tasks[i].kind, u) && Open(s, s.tasks[i], u)
    ensures Leads(bc, s, m) && u in m.db && Has(want, m.db[u])
  {
    LeadsNowhere(bc, s);
    hide Inv, Sound, Leads, Entity, Hooked, Fetch, Asks, Later, Stuck, Removed, GoneForGood, TakenForGood;
    var k := BringBack(bc, s, s, Some(i));
    LiveWhenBack(s, k, u);
    var f := Fetches(bc, s, k, i);
    FetchedIsFree(bc, s, want, u, k, f, i);
    hide Open;
    var salt :| Yields(bc, want, Entity(f.tasks[i]), salt);
    HolderIsLive(bc, f, f.tasks[i]);
    hide Free;
    m := LetThrough(bc, s, f, i, salt);
  }

  lemma FetchedIsFree(bc: Bcrypt, s: State, want: Want, u: UserId, k: State, f: State, i: nat)
    requires Inv(bc, k) && Later(s, k) && Stuck(k, Removed(k)) && Live(k.db, u) && i < |k.tasks|
    requires k.tasks[i].stage.Asked? && Asks(bc, want, k.tasks[i].kind, u) && Open(s, k.tasks[i], u)
    requires f.db == k.db && |f.tasks| == |k.tasks| && f.tasks[i] == k.tasks[i].(stage := Fetch(k.db, k.tasks[i].kind))
    ensures Free(f, i) && Holds(f.tasks[i], u) && exists salt :: Yields(bc, want, Entity(f.tasks[i]), salt)
  {
    StuckBefore(s, k, Removed(k));
    forall p | p in k.db && k.db[p].deleted ensures GoneForGood(s, p) { assert p in Removed(k); }
    hide Stuck, Removed, GoneForGood, Hooked;
    assert DistinctEmails(k.db);
    hide Inv;
    assert Yields(bc, want, Entity(f.tasks[i]), "") || want.PASSWORD?;
    if want.PASSWORD? {
      var salt :| Hooked(bc, k.tasks[i].kind.change.password.value, salt) == Some(want.stored);
      assert Yields(bc, want, Entity(f.tasks[i]), salt);
    }
  }

  /**
   * What a user's row does not have comes back, under some interleaving in which no new call asks
   * for it, exactly when some call under way would save it and can get through: one that fetched
   * the row before, unless the email it writes is that of another user who is gone for good; or
   * one that asks for it, unless the user is, or the email it writes is taken for good.
   */
  lemma ColumnReturnsExactly(bc: Bcrypt, s: State, want: Want, u: UserId)
    requires Sound(bc) && Inv(bc, s) && u in s.db && !Has(want, s.db[u])
    ensures (exists actions :: Regains(bc, s, want, actions, u)) <==>
            (exists t :: t in s.tasks && Restores(bc, want, t, u) && Open(s, t, u))
  {
    hide Inv, Sound, Run, Restores, Open, Has;
    if t :| t in s.tasks && Restores(bc, want, t, u) && Open(s, t, u) {
      var i :| 0 <= i < |s.tasks| && s.tasks[i] == t;
      var m := Restoration(bc, s, want, u, i);
      var actions := RunThere(bc, s, m);
      RenamesAskNothing(bc, want, actions, u);
      assert Regains(bc, s, want, actions, u);
    } else {
      AllGoneAreStuck(s);
      AllKeptOut(bc, s, want, u);
      forall actions | NoneAsked(bc, want, actions, u) ensures !Regains(bc, s, want, actions, u) {
        StaysKeptOut(bc, s, want, u, AllGone(s), actions);
      }
    }
  }

  lemma Restoration(bc: Bcrypt, s: State, want: Want, u: UserId, i: nat) returns (m: State)
    requires Sound(bc) && Inv(bc, s) && u in s.db && i < |s.tasks|
    requires Restores(bc, want, s.tasks[i], u) && Open(s, s.tasks[i], u)
    ensures Leads(bc, s, m) && u in m.db && Has(want, m.db[u])
  {
    hide Inv, Sound, Leads, Has, Open;
    if Holds(s.tasks[i], u) { m := HolderRestores(bc, s, want, u, i); }
    else { m := AskerRestores(bc, s, want, u, i); }
  }

  lemma AllKeptOut(bc: Bcrypt, s: State, want: Want, u: UserId)
    requires u in s.db && !Has(want, s.db[u])
    requires forall t :: t in s.tasks && Restores(bc, want, t, u) ==> !Open(s, t, u)
    ensures KeptOut(bc, s, want, u, AllGone(s))
  {
    AllGoneAreStuck(s);
    hide Stuck, Restores, Has, GoneForGood;
    forall t | t in s.tasks && Restores(bc, want, t, u) ensures Refused(s.db, AllGone(s), t, u) {
      assert !Open(s, t, u);
    }
  }

  predicate Active(db: Table, u: UserId) {
    Live(db, u) && db[u].status == ACTIVE
  }

  /**
   * A ban, a deactivation or a removal is undone, with no new call for ACTIVE, exactly when a call
   * under way holds an ACTIVE entity of the user or asks for ACTIVE, and can get through.
   */
  lemma BarIsLiftedExactly(bc: Bcrypt, s: State, u: UserId)
    requires Sound(bc) && Inv(bc, s) && u in s.db && !Active(s.db, u)
    ensures (exists actions :: NoneAsked(bc, ACTIVE_AGAIN, actions, u) && Active(Run(bc, s, actions).db, u)) <==>
            (exists t :: t in s.tasks && Restores(bc, ACTIVE_AGAIN, t, u) && Open(s, t, u))
  {
    hide Inv, Sound, Run, Restores, Open, NoneAsked;
    ColumnReturnsExactly(bc, s, ACTIVE_AGAIN, u);
    forall actions ensures Regains(bc, s, ACTIVE_AGAIN, actions, u) <==>
                           NoneAsked(bc, ACTIVE_AGAIN, actions, u) && Active(Run(bc, s, actions).db, u) {}
  }

  /**
   * A user who is not active stays so, whatever other calls run and however they interleave, as
   * long as no call for ACTIVE is made and none that would save ACTIVE is under way.
   */
  lemma BarredStays(bc: Bcrypt, s: State, actions: seq<Action>, u: UserId)
    requires Sound(bc) && Inv(bc, s) && u in s.db && !Active(s.db, u)
    requires NoneAsked(bc, ACTIVE_AGAIN, actions, u)
    requires forall t :: t in s.tasks ==> !Restores(bc, ACTIVE_AGAIN, t, u)
    ensures u in Run(bc, s, actions).db && !Active(Run(bc, s, actions).db, u)
    ensures forall t :: t in Run(bc, s, actions).tasks ==> !Restores(bc, ACTIVE_AGAIN, t, u)
  {
    hide Restores, Run, Inv, Sound;
    StaysKeptOut(bc, s, ACTIVE_AGAIN, u, {}, actions);
    var s' := Run(bc, s, actions);
    forall t ensures !Refused(s'.db, {}, t, u) { NoOneRefuses(s'.db, t, u); }
  }

  lemma NoOneRefuses(db: Table, t: Task, u: UserId)
    ensures !Refused(db, {}, t, u)
  {}

  // ---- two runs from the empty table -------------------------------------------------------

  lemma RunOfTwo(bc: Bcrypt, s: State, a: Action, b: Action)
    ensures Run(bc, s, [a, b]) == Step(bc, Step(bc, s, a), b)
  {
    hide Step;
    assert [a, b] == [] + [a] + [b];
    RunOfOne(bc, s, [], a);
    RunOfOne(bc, s, [] + [a], b);
  }

  /** A user is created, an update fetches it, another call runs, and the update saves. */
  function Overlap(id: UserId, dto: CreateUserDto, change: UpdateUserDto, between: Kind): seq<Action> {
    CallRun(Create(id, dto), 0)
    + [Spawn(Update(id, change)), Advance(1, "")]
    + CallRun(between, 2)
    + [Advance(1, ""), Advance(1, "")]
  }

  ghost function CreatedRow(bc: Bcrypt, dto: CreateUserDto): Row {
    NewRow(dto).(password := Hooked(bc, dto.password, ""))
  }

  ghost function Fetched(bc: Bcrypt, id: UserId, dto: CreateUserDto, change: UpdateUserDto): State {
    State(map[id := CreatedRow(bc, dto)], [Task(Create(id, dto), Over), Task(Update(id, change), Held(id, CreatedRow(bc, dto)))])
  }

  lemma FetchedAfter(bc: Bcrypt, id: UserId, dto: CreateUserDto, change: UpdateUserDto)
    ensures var a := [Spawn(Update(id, change)), Advance(1, "")];
            Run(bc, Start, CallRun(Create(id, dto), 0) + a) == Fetched(bc, id, dto, change)
  {
    var a := [Spawn(Update(id, change)), Advance(1, "")];
    var created := State(map[id := CreatedRow(bc, dto)], [Task(Create(id, dto), Over)]);
    RunsJoin(bc, Start, CallRun(Create(id, dto), 0), a);
    CallRunIsWhole(bc, Start, Create(id, dto));
    hide Run, CallRun, Hooked;
    assert Whole(bc, Start, Create(id, dto)) == created;
    RunOfTwo(bc, created, a[0], a[1]);
    assert Step(bc, Step(bc, created, a[0]), a[1]) == Fetched(bc, id, dto, change);
  }

  /** The state between the other call and the save, and the table after the save if no one has the new email. */
  lemma Overlapped(bc: Bcrypt, id: UserId, dto: CreateUserDto, change: UpdateUserDto, between: Kind)
    ensures var run, s := Overlap(id, dto, change, between), Fetched(bc, id, dto, change);
            var db, row := CallOf(bc, s.db, between, "").0, Merge(CreatedRow(bc, dto), change);
            && Run(bc, Start, run[..|run| - 2]) == Whole(bc, s, between)
            && |Run(bc, Start, run).tasks| == 3
            && ((change.email.None? || !LiveEmail(db, row.email)) && !UsedByOther(db, id, row.email) ==>
                  Run(bc, Start, run).db == db[id := row.(password := Hooked(bc, row.password, ""))])
  {
    var run, s := Overlap(id, dto, change, between), Fetched(bc, id, dto, change);
    var a, b := [Spawn(Update(id, change)), Advance(1, "")], [Advance(1, ""), Advance(1, "")];
    var first := CallRun(Create(id, dto), 0) + a;
    assert run == first + CallRun(between, 2) + b && run[..|run| - 2] == first + CallRun(between, 2);
    RunsJoin(bc, Start, first, CallRun(between, 2));
    RunsJoin(bc, Start, first + CallRun(between, 2), b);
    FetchedAfter(bc, id, dto, change);
    CallRunIsWhole(bc, s, between);
    hide Run, CallRun, Overlap, Step, Whole;
    RunOfTwo(bc, Whole(bc, s, between), b[0], b[1]);
    SavedAfter(bc, id, dto, change, between);
  }

  lemma SavedAfter(bc: Bcrypt, id: UserId, dto: CreateUserDto, change: UpdateUserDto, between: Kind)
    ensures var s, a := Fetched(bc, id, dto, change), Advance(1, "");
            var db, row := CallOf(bc, s.db, between, "").0, Merge(CreatedRow(bc, dto), change);
            var end := Step(bc, Step(bc, Whole(bc, s, between), a), a);
            && |end.tasks| == 3
            && ((change.email.None? || !LiveEmail(db, row.email)) && !UsedByOther(db, id, row.email) ==>
                  end.db == db[id := row.(password := Hooked(bc, row.password, ""))])
  {
    hide CreatedRow, CallOf, UsedByOther, LiveEmail, Hooked;
  }

  /** Every ACTIVE user who is banned between the fetch and the save of a profile update is ACTIVE again. */
  lemma LateSaveUndoesBan(bc: Bcrypt, id: UserId, dto: CreateUserDto, name: string)
    requires dto.status == Some(ACTIVE)
    ensures var run := Overlap(id, dto, UpdateUserDto(None, None, None, Some(name)), SetStatus(id, BANNED));
            var banned, end := Run(bc, Start, run[..|run| - 2]).db, Run(bc, Start, run).db;
            Live(banned, id) && banned[id].status == BANNED && Active(end, id)
  {
    Overlapped(bc, id, dto, UpdateUserDto(None, None, None, Some(name)), SetStatus(id, BANNED));
    hide Run, CallRun, Overlap, Hooked;
  }

  /** A user who is removed between the fetch and the save of an update to another email is live again with that. */
  lemma LateSaveUndoesRemoval(bc: Bcrypt, id: UserId, dto: CreateUserDto, email: string)
    requires email != dto.email
    ensures var run := Overlap(id, dto, UpdateUserDto(Some(email), None, None, None), Remove(id));
            var removed, end := Run(bc, Start, run[..|run| - 2]).db, Run(bc, Start, run);
            && id in removed && removed[id].deleted && removed[id].email == dto.email
            && end.db.Keys == {id} && Live(end.db, id) && end.db[id].email == email && |end.tasks| == 3
  {
    var change, row := UpdateUserDto(Some(email), None, None, None), CreatedRow(bc, dto);
    Overlapped(bc, id, dto, change, Remove(id));
    hide Run, CallRun, Overlap, Hooked;
    assert CallOf(bc, Fetched(bc, id, dto, change).db, Remove(id), "").0 == map[id := row.(deleted := true)];
    hide CallOf;
  }

  /** The email that such a user had when removed then goes to whoever is created with it. */
  lemma LateSaveFreesRemovedEmail(bc: Bcrypt, id: UserId, dto: CreateUserDto, email: string, other: UserId, dto': CreateUserDto)
    requires email != dto.email && other != id && dto'.email == dto.email
    ensures var run := Overlap(id, dto, UpdateUserDto(Some(email), None, None, None), Remove(id));
            var end := Run(bc, Start, run + CallRun(Create(other, dto'), 3)).db;
            Live(end, id) && Live(end, other) && end[other].email == dto.email
  {
    var run := Overlap(id, dto, UpdateUserDto(Some(email), None, None, None), Remove(id));
    LateSaveUndoesRemoval(bc, id, dto, email);
    RunsJoin(bc, Start, run, CallRun(Create(other, dto'), 3));
    CallRunIsWhole(bc, Run(bc, Start, run), Create(other, dto'));
    CreatedBeside(bc, Run(bc, Start, run).db, id, other, dto');
    hide Run, CallRun, Overlap, CallOf;
  }

  lemma CreatedBeside(bc: Bcrypt, db: Table, id: UserId, other: UserId, dto: CreateUserDto)
    requires db.Keys == {id} && other != id && db[id].email != dto.email
    ensures var db' := CallOf(bc, db, Create(other, dto), "").0;
            id in db' && db'[id] == db[id] && Live(db', other) && db'[other].email == dto.email
  {
    hide Hooked;
  }
}
