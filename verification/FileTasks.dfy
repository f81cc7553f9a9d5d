/**
 * Uploads, completions and deletions as tasks whose steps interleave, each await of the code
 * ending a step. A task that is never advanced again is a call that stopped there. The theorems
 * say exactly when a row lacks its object, when an object lacks its row, and when a deleted row
 * comes back.
 */
module FileTasks {
  import opened Prelude
  import opened Files

  datatype Task =
    | Uploading(id: FileId, key: string, file: Upload, now: int, at: UploadStage)
    | Deleting(id: FileId, user: Option<UserId>, hard: bool, at': DeleteStage)
    | Completing(id: FileId, size: int, at'': CompleteStage)

  datatype UploadStage = Begun | Put | Saved

  /** Found remembers the key of the row that was read; Emptied has deleted the object. */
  datatype DeleteStage = Asked | Found(key: string) | Emptied(key: string) | Deleted | Refused

  /** Fetched remembers the row that was read. */
  datatype CompleteStage = Called | Fetched(row: FileRow) | Answered

  /** keyOf and uploads record which key each new id was given, and what uploadFile was given for it. */
  datatype State = State(store: Store, tasks: seq<Task>, keyOf: map<FileId, string>, uploads: map<FileId, Upload>)

  datatype Action =
    | StartUpload(newId: FileId, newKey: string, file: Upload, now: int)
    | StartDelete(id: FileId, user: Option<UserId>)
    | StartRemove(id: FileId)
    | Advance(i: nat)
    | Presign(newId: FileId, row: FileRow)
    | ClientPut(id: FileId, bytes: Bytes)
    | StartComplete(id: FileId, size: int)

  function With(s: State, i: nat, t: Task, store: Store): State
    requires i < |s.tasks|
  {
    s.(tasks := s.tasks[i := t], store := store)
  }

  function AdvanceUpload(s: State, i: nat): State
    requires i < |s.tasks| && s.tasks[i].Uploading?
  {
    var t, store := s.tasks[i], s.store;
    match t.at
    case Begun => With(s, i, t.(at := Put), store.(objects := store.objects[t.key := t.file.bytes]))
    case Put =>
      With(s, i, t.(at := Saved),
           if t.id in store.rows then store else store.(rows := store.rows[t.id := UploadedRow(t.file, t.key, t.now)]))
    case Saved => s
  }

  function AdvanceDelete(s: State, i: nat): State
    requires i < |s.tasks| && s.tasks[i].Deleting?
  {
    var t, store := s.tasks[i], s.store;
    match t.at'
    case Asked =>
      if Live(store.rows, t.id) && (t.hard || Owns(t.user, store.rows[t.id]))
      then With(s, i, t.(at' := Found(store.rows[t.id].key)), store)
      else With(s, i, t.(at' := Refused), store)
    case Found(key) => With(s, i, t.(at' := Emptied(key)), store.(objects := store.objects - {key}))
    case Emptied(_) =>
      With(s, i, t.(at' := Deleted),
           if t.hard then store.(rows := store.rows - {t.id})
           else if t.id in store.rows then store.(rows := store.rows[t.id := store.rows[t.id].(deleted := true)])
           else store)
    case _ => s
  }

  /**
   * The save of completeUpload writes the fetched entity back as a whole: it resets the deletion
   * mark of a row that was soft-deleted meanwhile, and inserts a row that was removed.
   */
  function AdvanceComplete(s: State, i: nat): State
    requires i < |s.tasks| && s.tasks[i].Completing?
  {
    var t, store := s.tasks[i], s.store;
    match t.at''
    case Called => With(s, i, t.(at'' := if Live(store.rows, t.id) then Fetched(store.rows[t.id]) else Answered), store)
    case Fetched(row) =>
      With(s, i, t.(at'' := Answered),
           store.(rows := store.rows[t.id := row.(size := t.size, url := Some(UrlOf(row.key)))]))
    case Answered => s
  }

  function Step(s: State, a: Action): State {
    match a
    case StartUpload(id, key, file, now) =>
      s.(tasks := s.tasks + [Uploading(id, key, file, now, Begun)], keyOf := s.keyOf[id := key], uploads := s.uploads[id := file])
    case StartDelete(id, user) => s.(tasks := s.tasks + [Deleting(id, user, false, Asked)])
    case StartRemove(id) => s.(tasks := s.tasks + [Deleting(id, None, true, Asked)])
    case Advance(i) =>
      if i >= |s.tasks| then s
      else if s.tasks[i].Uploading? then AdvanceUpload(s, i)
      else if s.tasks[i].Deleting? then AdvanceDelete(s, i)
      else AdvanceComplete(s, i)
    case Presign(id, row) =>
      s.(store := PresignCall(s.store, true, id, row, 1).0, keyOf := s.keyOf[id := row.key])
    case ClientPut(id, bytes) =>  // a presigned URL allows one key only
      if id in s.keyOf && id !in s.uploads
      then s.(store := s.store.(objects := s.store.objects[s.keyOf[id] := bytes])) else s
    case StartComplete(id, size) => s.(tasks := s.tasks + [Completing(id, size, Called)])
  }

  ghost predicate KeyTaken(s: State, key: string) {
    exists id :: id in s.keyOf && s.keyOf[id] == key
  }

  /** New ids and keys are new: UUIDs are fresh, and keys with distinct UUIDs differ. */
  ghost predicate Fresh(s: State, a: Action) {
    match a
    case StartUpload(id, key, _, _) => id !in s.keyOf && !KeyTaken(s, key)
    case Presign(id, row) => id !in s.keyOf && !KeyTaken(s, row.key) && !row.deleted
    case _ => true
  }

  function Start(): State {
    State(Store(map[], map[]), [], map[], map[])
  }

  function Run(s: State, actions: seq<Action>): State {
    if actions == [] then s else Step(Run(s, actions[..|actions| - 1]), actions[|actions| - 1])
  }

  ghost predicate Admissible(s: State, actions: seq<Action>) {
    actions == [] ||
    (Admissible(s, actions[..|actions| - 1]) && Fresh(Run(s, actions[..|actions| - 1]), actions[|actions| - 1]))
  }

  // ---- the invariant -----------------------------------------------------------------------

  /** Some upload of the file has got to this stage. */
  ghost predicate UploadAt(s: State, id: FileId, stage: UploadStage) {
    exists t :: t in s.tasks && t.Uploading? && t.id == id && t.at == stage
  }

  /** Some deletion of the file has deleted the object and not yet reached the row. */
  ghost predicate DeletionHalfway(s: State, id: FileId) {
    exists t :: t in s.tasks && t.Deleting? && t.id == id && t.at'.Emptied?
  }

  /** Some deletion of the file has reached the row. */
  ghost predicate DeletionDone(s: State, id: FileId) {
    exists t :: t in s.tasks && t.Deleting? && t.id == id && t.at'.Deleted?
  }

  ghost predicate KeysDistinct(s: State) {
    forall a, b :: a in s.keyOf && b in s.keyOf && s.keyOf[a] == s.keyOf[b] ==> a == b
  }

  ghost predicate RowsKeyed(s: State) {
    forall id :: id in s.store.rows ==> id in s.keyOf && s.store.rows[id].key == s.keyOf[id]
  }

  ghost predicate ObjectsKeyed(s: State) {
    forall k :: k in s.store.objects ==> KeyTaken(s, k)
  }

  ghost predicate KeysKnown(s: State) {
    KeysDistinct(s) && RowsKeyed(s) && ObjectsKeyed(s) && s.uploads.Keys <= s.keyOf.Keys
  }

  /** An id that uploadFile made is unsaved exactly while its one task is before Saved. */
  ghost predicate TaskOk(s: State, t: Task) {
    && (t.Uploading? ==>
          && t.id in s.uploads && s.uploads[t.id] == t.file && t.id in s.keyOf && s.keyOf[t.id] == t.key
          && (t.at != Saved ==> t.id !in s.store.rows && (t.key in s.store.objects <==> t.at == Put)))
    && (t.Deleting? && !t.at'.Asked? && !t.at'.Refused? ==>
          t.id in s.keyOf && (t.id in s.uploads ==> UploadAt(s, t.id, Saved)))
    && (t.Deleting? && (t.at'.Found? || t.at'.Emptied?) ==> s.keyOf[t.id] == t.at'.key)
    && (t.Completing? && t.at''.Fetched? ==>
          && t.id in s.keyOf && s.keyOf[t.id] == t.at''.row.key && !t.at''.row.deleted
          && (t.id in s.uploads ==> UploadAt(s, t.id, Saved)))
  }

  ghost predicate OneTaskEach(s: State) {
    forall i, k :: 0 <= i < k < |s.tasks| && s.tasks[i].Uploading? && s.tasks[k].Uploading? ==> s.tasks[i].id != s.tasks[k].id
  }

  /** The object of an uploaded file, told from its row and its tasks. */
  ghost predicate ObjectAsExpected(s: State, id: FileId)
    requires id in s.keyOf && id in s.uploads
  {
    var key := s.keyOf[id];
    && (key in s.store.objects ==> s.store.objects[key] == s.uploads[id].bytes)
    && (key in s.store.objects <==>
          UploadAt(s, id, Put) || (UploadAt(s, id, Saved) && !DeletionHalfway(s, id) && !DeletionDone(s, id)))
    && (id in s.store.rows ==> UploadAt(s, id, Saved))
    && (UploadAt(s, id, Saved) && !Live(s.store.rows, id) ==> DeletionDone(s, id))
  }

  ghost predicate FileOk(s: State, id: FileId) {
    && (forall t :: t in s.tasks && t.id == id ==> TaskOk(s, t))
    && (id in s.uploads ==> id in s.keyOf && ObjectAsExpected(s, id))
  }

  ghost predicate Inv(s: State) {
    && KeysKnown(s) && OneTaskEach(s)
    && (forall id :: FileOk(s, id))
  }

  // ---- every step keeps it: first, for all files but its own ------------------------------

  /** The file that an action is about. */
  function Subject(s: State, a: Action): Option<FileId> {
    match a
    case Advance(i) => if i < |s.tasks| then Some(s.tasks[i].id) else None
    case StartUpload(id, _, _, _) => Some(id)
    case Presign(id, _) => Some(id)
    case ClientPut(id, _) => Some(id)
    case StartComplete(id, _) => Some(id)
    case StartDelete(id, _) => Some(id)
    case StartRemove(id) => Some(id)
  }

  /** The same key, row and object for a file. */
  ghost predicate SameData(s: State, s': State, id: FileId) {
    && (id in s.keyOf <==> id in s'.keyOf) && (id in s.uploads <==> id in s'.uploads)
    && (id in s.keyOf ==> s'.keyOf[id] == s.keyOf[id])
    && (id in s.uploads ==> s'.uploads[id] == s.uploads[id])
    && (id in s.store.rows <==> id in s'.store.rows)
    && (id in s.store.rows ==> s'.store.rows[id] == s.store.rows[id])
    && (id in s.keyOf ==> (s.keyOf[id] in s.store.objects <==> s.keyOf[id] in s'.store.objects))
    && (id in s.keyOf && s.keyOf[id] in s.store.objects ==>
          s'.store.objects[s.keyOf[id]] == s.store.objects[s.keyOf[id]])
  }

  ghost predicate SameTasks(s: State, s': State, id: FileId) {
    forall t: Task :: t.id == id ==> (t in s.tasks <==> t in s'.tasks)
  }

  lemma SameFileStaysOk(s: State, s': State, id: FileId)
    requires FileOk(s, id) && SameData(s, s', id) && SameTasks(s, s', id)
    ensures FileOk(s', id)
  {
    forall stage ensures UploadAt(s', id, stage) <==> UploadAt(s, id, stage) {}
    assert (DeletionHalfway(s', id) <==> DeletionHalfway(s, id)) && (DeletionDone(s', id) <==> DeletionDone(s, id));
    hide UploadAt, DeletionHalfway, DeletionDone;
    forall t | t in s'.tasks && t.id == id ensures TaskOk(s', t) {
      assert TaskOk(s, t);
    }
  }

  /** What a task list has after one task is replaced. */
  lemma TasksAfter(s: State, i: nat, t: Task, store: Store)
    requires i < |s.tasks|
    ensures t in With(s, i, t, store).tasks && s.tasks[i] in s.tasks
    ensures forall x :: x in With(s, i, t, store).tasks ==> x == t || x in s.tasks
    ensures forall x :: x in s.tasks ==> x == s.tasks[i] || x in With(s, i, t, store).tasks
  {
    var s' := With(s, i, t, store);
    assert s'.tasks[i] == t;
    forall x | x in s.tasks && x != s.tasks[i] ensures x in s'.tasks {
      var k :| 0 <= k < |s.tasks| && s.tasks[k] == x;
      assert s'.tasks[k] == x;
    }
  }

  lemma AdvanceReplacesOne(s: State, i: nat)
    requires i < |s.tasks|
    ensures var s' := Step(s, Advance(i));
            |s'.tasks| == |s.tasks| && s' == With(s, i, s'.tasks[i], s'.store) && s'.tasks[i].id == s.tasks[i].id
            && s'.tasks[i].Uploading? == s.tasks[i].Uploading?
  {}

  lemma OtherTasksStay(s: State, a: Action, other: FileId)
    requires Subject(s, a) != Some(other)
    ensures SameTasks(s, Step(s, a), other)
  {
    var s' := Step(s, a);
    if a.Advance? && a.i < |s.tasks| {
      AdvanceReplacesOne(s, a.i);
      TasksAfter(s, a.i, s'.tasks[a.i], s'.store);
    }
  }

  lemma OtherDataStaysOnUpload(s: State, i: nat, other: FileId)
    requires KeysDistinct(s) && i < |s.tasks| && s.tasks[i].Uploading? && TaskOk(s, s.tasks[i]) && s.tasks[i].id != other
    ensures SameData(s, AdvanceUpload(s, i), other)
  {
    hide UploadAt;
  }

  lemma OtherDataStaysOnDelete(s: State, i: nat, other: FileId)
    requires KeysDistinct(s) && i < |s.tasks| && s.tasks[i].Deleting? && TaskOk(s, s.tasks[i]) && s.tasks[i].id != other
    ensures SameData(s, AdvanceDelete(s, i), other)
  {
    hide UploadAt;
  }

  lemma OtherDataStaysOnComplete(s: State, i: nat, other: FileId)
    requires i < |s.tasks| && s.tasks[i].Completing? && s.tasks[i].id != other
    ensures SameData(s, AdvanceComplete(s, i), other)
  {}

  /** The key that a step about a file may touch in the store is that file's. */
  lemma OtherDataStays(s: State, a: Action, other: FileId)
    requires KeysKnown(s) && Fresh(s, a) && Subject(s, a) != Some(other) && !a.Advance?
    ensures SameData(s, Step(s, a), other)
  {
    if a.StartUpload? || a.Presign? {
      assert other in s.keyOf ==> KeyTaken(s, s.keyOf[other]);
    }
  }

  lemma NothingChanges(s: State, other: FileId)
    ensures SameData(s, s, other)
  {}

  /** No step of one file changes the row or the object of another, nor makes it appear or vanish. */
  lemma StepsAreLocal(s: State, a: Action, other: FileId)
    requires Inv(s) && Fresh(s, a) && Subject(s, a) != Some(other)
    ensures SameData(s, Step(s, a), other) && SameTasks(s, Step(s, a), other)
  {
    hide SameData, SameTasks;
    if a.Advance? {
      if a.i < |s.tasks| {
        assert FileOk(s, s.tasks[a.i].id);
        if s.tasks[a.i].Uploading? { OtherDataStaysOnUpload(s, a.i, other); }
        else if s.tasks[a.i].Deleting? { OtherDataStaysOnDelete(s, a.i, other); }
        else { OtherDataStaysOnComplete(s, a.i, other); }
      } else {
        NothingChanges(s, other);
      }
    } else {
      OtherDataStays(s, a, other);
    }
    OtherTasksStay(s, a, other);
  }

  // ---- then for its own --------------------------------------------------------------------

  lemma UploadIsAt(s: State, i: nat, stage: UploadStage)
    requires OneTaskEach(s) && i < |s.tasks| && s.tasks[i].Uploading?
    ensures UploadAt(s, s.tasks[i].id, stage) <==> s.tasks[i].at == stage
  {
    assert s.tasks[i] in s.tasks;
  }

  lemma UploadStepKeepsFile(s: State, i: nat)
    requires Inv(s) && i < |s.tasks| && s.tasks[i].Uploading? && OneTaskEach(AdvanceUpload(s, i))
    ensures FileOk(AdvanceUpload(s, i), s.tasks[i].id)
  {
    var t, s' := s.tasks[i], AdvanceUpload(s, i);
    if t.at != Saved {
      var id, t' := t.id, s'.tasks[i];
      TasksAfter(s, i, t', s'.store);
      assert (DeletionHalfway(s', id) <==> DeletionHalfway(s, id)) && (DeletionDone(s', id) <==> DeletionDone(s, id));
      forall stage ensures (UploadAt(s, id, stage) <==> t.at == stage) && (UploadAt(s', id, stage) <==> t'.at == stage) {
        UploadIsAt(s, i, stage);
        UploadIsAt(s', i, stage);
      }
      forall x | x in s'.tasks && x.id == id && x.Uploading? ensures x == t' {
        var k :| 0 <= k < |s'.tasks| && s'.tasks[k] == x;
      }
      hide UploadAt, DeletionHalfway, DeletionDone, OneTaskEach;
      assert FileOk(s, id) && TaskOk(s, t);
      hide Inv;
      forall x | x in s'.tasks && x.id == id ensures TaskOk(s', x) {
        assert x != t' ==> TaskOk(s, x);
      }
    }
  }

  lemma DeleteStepMoves(s: State, i: nat)
    requires i < |s.tasks| && s.tasks[i].Deleting? && !s.tasks[i].at'.Deleted? && !s.tasks[i].at'.Refused?
    ensures var s', id := AdvanceDelete(s, i), s.tasks[i].id;
            && s' == With(s, i, s'.tasks[i], s'.store)
            && (forall stage :: UploadAt(s', id, stage) <==> UploadAt(s, id, stage))
            && (s.tasks[i].at'.Found? ==> DeletionHalfway(s', id) && (DeletionDone(s', id) <==> DeletionDone(s, id)))
            && (s.tasks[i].at'.Emptied? ==> DeletionHalfway(s, id) && DeletionDone(s', id))
            && (s.tasks[i].at'.Asked? ==>
                  (DeletionHalfway(s', id) <==> DeletionHalfway(s, id)) && (DeletionDone(s', id) <==> DeletionDone(s, id)))
  {
    var s' := AdvanceDelete(s, i);
    TasksAfter(s, i, s'.tasks[i], s'.store);
  }

  lemma TheOnlyUpload(s: State, id: FileId, stage: UploadStage)
    requires OneTaskEach(s) && UploadAt(s, id, stage)
    ensures forall other :: UploadAt(s, id, other) ==> other == stage
    ensures forall x :: x in s.tasks && x.Uploading? && x.id == id ==> x.at == stage
  {}

  lemma DeleteStepKeepsTasks(s: State, i: nat)
    requires Inv(s) && i < |s.tasks| && s.tasks[i].Deleting? && !s.tasks[i].at'.Deleted? && !s.tasks[i].at'.Refused?
    ensures var s' := AdvanceDelete(s, i); forall x :: x in s'.tasks && x.id == s.tasks[i].id ==> TaskOk(s', x)
  {
    var t, s' := s.tasks[i], AdvanceDelete(s, i);
    if UploadAt(s, t.id, Saved) { TheOnlyUpload(s, t.id, Saved); }
    TasksAfter(s, i, s'.tasks[i], s'.store);
    DeleteStepMoves(s, i);
    hide UploadAt, DeletionHalfway, DeletionDone, OneTaskEach, KeysDistinct, ObjectsKeyed, ObjectAsExpected;
    assert FileOk(s, t.id) && TaskOk(s, t);
    forall x | x in s'.tasks && x.id == t.id ensures TaskOk(s', x) {
      assert x != s'.tasks[i] ==> TaskOk(s, x);
    }
  }

  lemma DeleteStepKeepsFile(s: State, i: nat)
    requires Inv(s) && i < |s.tasks| && s.tasks[i].Deleting?
    ensures FileOk(AdvanceDelete(s, i), s.tasks[i].id)
  {
    var t := s.tasks[i];
    if !t.at'.Deleted? && !t.at'.Refused? {
      DeleteStepKeepsTasks(s, i);
      DeleteStepMoves(s, i);
      assert FileOk(s, t.id) && TaskOk(s, t);
      if UploadAt(s, t.id, Saved) { TheOnlyUpload(s, t.id, Saved); }
      hide UploadAt, DeletionHalfway, DeletionDone, OneTaskEach, KeysDistinct, ObjectsKeyed;
    }
  }

  /** What one more step of a completion leaves alone. */
  lemma CompleteStepMoves(s: State, i: nat)
    requires i < |s.tasks| && s.tasks[i].Completing? && !s.tasks[i].at''.Answered?
    ensures var s', id := AdvanceComplete(s, i), s.tasks[i].id;
            && s' == With(s, i, s'.tasks[i], s'.store)
            && (forall stage :: UploadAt(s', id, stage) <==> UploadAt(s, id, stage))
            && (DeletionHalfway(s', id) <==> DeletionHalfway(s, id)) && (DeletionDone(s', id) <==> DeletionDone(s, id))
  {
    var s' := AdvanceComplete(s, i);
    TasksAfter(s, i, s'.tasks[i], s'.store);
  }

  lemma CompleteStepKeepsFile(s: State, i: nat)
    requires Inv(s) && i < |s.tasks| && s.tasks[i].Completing?
    ensures FileOk(AdvanceComplete(s, i), s.tasks[i].id)
  {
    var t, s' := s.tasks[i], AdvanceComplete(s, i);
    var id := t.id;
    if UploadAt(s, id, Saved) { TheOnlyUpload(s, id, Saved); }
    if !t.at''.Answered? {
      TasksAfter(s, i, s'.tasks[i], s'.store);
      CompleteStepMoves(s, i);
      hide UploadAt, DeletionHalfway, DeletionDone, OneTaskEach, KeysDistinct, ObjectsKeyed;
      assert FileOk(s, id) && TaskOk(s, t);
      forall x | x in s'.tasks && x.id == id ensures TaskOk(s', x) {
        assert x != s'.tasks[i] ==> TaskOk(s, x);
      }
    }
  }

  lemma StartUploadKeepsFile(s: State, a: Action)
    requires Inv(s) && Fresh(s, a) && a.StartUpload?
    ensures FileOk(Step(s, a), a.newId)
  {
    var s', t, id := Step(s, a), Step(s, a).tasks[|s.tasks|], a.newId;
    assert s'.tasks[|s.tasks|] in s'.tasks;
    assert forall x :: x in s'.tasks <==> x == t || x in s.tasks;
    assert FileOk(s, id);
    assert forall x :: x in s.tasks && x.id == id ==> TaskOk(s, x) && !x.Uploading?;
    assert a.newKey !in s.store.objects && id !in s.store.rows;
    forall stage ensures UploadAt(s', id, stage) <==> stage == Begun {
      assert t.Uploading? && t.id == id && t.at == Begun;
    }
    hide UploadAt;
  }

  lemma StartKeepsFile(s: State, a: Action, id: FileId)
    requires Inv(s) && Fresh(s, a) && Subject(s, a) == Some(id)
    requires a.StartDelete? || a.StartRemove? || a.StartComplete?
    ensures FileOk(Step(s, a), id)
  {
    var s', t := Step(s, a), Step(s, a).tasks[|s.tasks|];
    assert forall x :: x in s'.tasks <==> x == t || x in s.tasks by { assert s'.tasks[|s.tasks|] in s'.tasks; }
    assert FileOk(s, id);
    forall stage ensures UploadAt(s', id, stage) <==> UploadAt(s, id, stage) {}
    assert (DeletionHalfway(s', id) <==> DeletionHalfway(s, id)) && (DeletionDone(s', id) <==> DeletionDone(s, id));
    hide UploadAt, DeletionHalfway, DeletionDone;
    forall x | x in s'.tasks && x.id == id ensures TaskOk(s', x) {
      assert x != t ==> TaskOk(s, x);
    }
  }

  lemma ElsewhereKeepsFile(s: State, a: Action, id: FileId)
    requires Inv(s) && Fresh(s, a) && Subject(s, a) == Some(id)
    requires a.Presign? || a.ClientPut?
    ensures FileOk(Step(s, a), id)
  {
    var s' := Step(s, a);
    assert FileOk(s, id);
    forall stage ensures UploadAt(s', id, stage) <==> UploadAt(s, id, stage) {}
    assert (DeletionHalfway(s', id) <==> DeletionHalfway(s, id)) && (DeletionDone(s', id) <==> DeletionDone(s, id));
    hide UploadAt, DeletionHalfway, DeletionDone, OneTaskEach;
    forall x | x in s'.tasks && x.id == id ensures TaskOk(s', x) {
      assert TaskOk(s, x);
    }
  }

  lemma OneTaskEachStays(s: State, a: Action)
    requires Inv(s) && Fresh(s, a)
    ensures OneTaskEach(Step(s, a))
  {
    if a.Advance? && a.i < |s.tasks| { AdvanceReplacesOne(s, a.i); }
    if a.StartUpload? {
      forall k | 0 <= k < |s.tasks| && s.tasks[k].Uploading? ensures s.tasks[k].id != a.newId {
        assert FileOk(s, s.tasks[k].id) && TaskOk(s, s.tasks[k]);
      }
    }
  }

  lemma RowsStayKeyed(s: State, a: Action)
    requires RowsKeyed(s) && Fresh(s, a)
    requires a.Advance? && a.i < |s.tasks| ==> TaskOk(s, s.tasks[a.i])
    ensures RowsKeyed(Step(s, a)) && Step(s, a).uploads.Keys - s.uploads.Keys <= Step(s, a).keyOf.Keys
    ensures s.keyOf.Keys <= Step(s, a).keyOf.Keys
  {
    hide UploadAt, DeletionHalfway, DeletionDone, KeyTaken;
  }

  lemma KeysStayTaken(s: State, a: Action, k: string)
    requires Fresh(s, a) && KeyTaken(s, k)
    ensures KeyTaken(Step(s, a), k)
  {
    var id :| id in s.keyOf && s.keyOf[id] == k;
    assert Step(s, a).keyOf[id] == k;
  }

  /** Where a step may put an object. */
  lemma ObjectsOfStep(s: State, a: Action, k: string)
    requires k in Step(s, a).store.objects && k !in s.store.objects
    ensures a.Advance? ==> a.i < |s.tasks| && s.tasks[a.i].Uploading? && k == s.tasks[a.i].key
    ensures !a.Advance? ==> a.ClientPut? && a.id in s.keyOf && k == s.keyOf[a.id]
  {}

  lemma ObjectsStayKeyed(s: State, a: Action)
    requires ObjectsKeyed(s) && Fresh(s, a)
    requires a.Advance? && a.i < |s.tasks| ==> TaskOk(s, s.tasks[a.i])
    ensures ObjectsKeyed(Step(s, a))
  {
    hide Step, Fresh, UploadAt, DeletionHalfway, DeletionDone;
    forall k | k in Step(s, a).store.objects ensures KeyTaken(Step(s, a), k) {
      if k !in s.store.objects {
        ObjectsOfStep(s, a, k);
        assert KeyTaken(s, k);
      }
      KeysStayTaken(s, a, k);
    }
  }

  lemma KeysStayDistinct(s: State, a: Action)
    requires KeysDistinct(s) && Fresh(s, a)
    ensures KeysDistinct(Step(s, a))
  {
    forall id | id in s.keyOf ensures KeyTaken(s, s.keyOf[id]) {}
    hide KeyTaken;
  }

  lemma KeysKnownStays(s: State, a: Action)
    requires KeysKnown(s) && Fresh(s, a)
    requires a.Advance? && a.i < |s.tasks| ==> TaskOk(s, s.tasks[a.i])
    ensures KeysKnown(Step(s, a))
  {
    hide Step, Fresh, KeysDistinct, RowsKeyed, ObjectsKeyed, TaskOk;
    KeysStayDistinct(s, a);
    RowsStayKeyed(s, a);
    ObjectsStayKeyed(s, a);
  }

  lemma SubjectStaysOk(s: State, a: Action, id: FileId)
    requires Inv(s) && Fresh(s, a) && Subject(s, a) == Some(id)
    ensures FileOk(Step(s, a), id)
  {
    OneTaskEachStays(s, a);
    hide Inv, FileOk;
    match a
    case Advance(i) =>
      if s.tasks[i].Uploading? { UploadStepKeepsFile(s, i); }
      else if s.tasks[i].Deleting? { DeleteStepKeepsFile(s, i); }
      else { CompleteStepKeepsFile(s, i); }
    case Presign(_, _) => ElsewhereKeepsFile(s, a, id);
    case ClientPut(_, _) => ElsewhereKeepsFile(s, a, id);
    case StartUpload(_, _, _, _) => StartUploadKeepsFile(s, a);
    case _ => StartKeepsFile(s, a, id);
  }

  lemma StepKeepsInv(s: State, a: Action)
    requires Inv(s) && Fresh(s, a)
    ensures Inv(Step(s, a))
  {
    hide FileOk, KeysKnown, OneTaskEach, Step, Fresh;
    OneTaskEachStays(s, a);
    if a.Advance? && a.i < |s.tasks| { TaskIsOk(s, a.i); }
    KeysKnownStays(s, a);
    forall id ensures FileOk(Step(s, a), id) {
      if Subject(s, a) == Some(id) {
        SubjectStaysOk(s, a, id);
      } else {
        StepsAreLocal(s, a, id);
        SameFileStaysOk(s, Step(s, a), id);
      }
    }
  }

  lemma TaskIsOk(s: State, i: nat)
    requires Inv(s) && i < |s.tasks|
    ensures TaskOk(s, s.tasks[i])
  {
    assert FileOk(s, s.tasks[i].id);
  }

  lemma {:induction false} RunKeepsInv(s: State, actions: seq<Action>)
    requires Inv(s) && Admissible(s, actions)
    ensures Inv(Run(s, actions))
  {
    if actions != [] {
      RunKeepsInv(s, actions[..|actions| - 1]);
      StepKeepsInv(Run(s, actions[..|actions| - 1]), actions[|actions| - 1]);
    }
  }

  // ---- theorems ----------------------------------------------------------------------------

  /**
   * For every file that uploadFile was called for, in every interleaving: a live row lacks its
   * object exactly when a deletion of that file is between deleting the object and reaching the
   * row, or has reached the row, which a completion then wrote back; an object lacks a live row
   * exactly when its upload is between putting the object and saving the row; and an object that
   * is there holds the bytes that were uploaded.
   */
  lemma RowsAndObjectsAgree(actions: seq<Action>, id: FileId)
    requires Admissible(Start(), actions) && id in Run(Start(), actions).uploads
    ensures id in Run(Start(), actions).keyOf
    ensures var s := Run(Start(), actions);
            var key := s.keyOf[id];
            && (Live(s.store.rows, id) ==> (key !in s.store.objects <==> DeletionHalfway(s, id) || DeletionDone(s, id)))
            && (key in s.store.objects && !Live(s.store.rows, id) <==> UploadAt(s, id, Put))
            && (key in s.store.objects ==> s.store.objects[key] == s.uploads[id].bytes)
  {
    RunKeepsInv(Start(), actions);
    var s := Run(Start(), actions);
    assert FileOk(s, id);
    if UploadAt(s, id, Put) {
      var t :| t in s.tasks && t.Uploading? && t.id == id && t.at == Put;
      assert TaskOk(s, t);
    }
    if UploadAt(s, id, Saved) { TheOnlyUpload(s, id, Saved); }
  }

  // ---- deleted rows that come back ---------------------------------------------------------

  /** Some completion of the file has fetched the row and not yet saved it. */
  ghost predicate CompletionPending(s: State, id: FileId) {
    exists t :: t in s.tasks && t.Completing? && t.id == id && t.at''.Fetched?
  }

  /** The step saves what a completion of the file fetched, although the file is not live any more. */
  predicate SavesLate(s: State, a: Action, id: FileId) {
    && a.Advance? && a.i < |s.tasks| && s.tasks[a.i].Completing?
    && s.tasks[a.i].id == id && s.tasks[a.i].at''.Fetched? && !Live(s.store.rows, id)
  }

  lemma DeletionStaysDone(s: State, a: Action, id: FileId)
    requires DeletionDone(s, id)
    ensures DeletionDone(Step(s, a), id)
  {
    var done :| done in s.tasks && done.Deleting? && done.id == id && done.at'.Deleted?;
    if a.Advance? && a.i < |s.tasks| {
      AdvanceReplacesOne(s, a.i);
      TasksAfter(s, a.i, Step(s, a).tasks[a.i], Step(s, a).store);
    }
    assert done in Step(s, a).tasks;
  }

  lemma DeletedIsSaved(s: State, id: FileId)
    requires Inv(s) && DeletionDone(s, id)
    ensures id in s.keyOf && forall t :: t in s.tasks && t.Uploading? && t.id == id ==> t.at == Saved
  {
    var done :| done in s.tasks && done.Deleting? && done.id == id && done.at'.Deleted?;
    assert FileOk(s, id) && TaskOk(s, done);
    if UploadAt(s, id, Saved) { TheOnlyUpload(s, id, Saved); }
  }

  lemma LiveAfterStep(s: State, a: Action, id: FileId)
    requires !Live(s.store.rows, id) && (a.Presign? ==> id != a.newId)
    requires a.Advance? && a.i < |s.tasks| && s.tasks[a.i].id == id ==>
               var t := s.tasks[a.i];
               && (t.Uploading? ==> t.at == Saved)
               && (t.Completing? && t.at''.Fetched? ==> !t.at''.row.deleted)
    ensures Live(Step(s, a).store.rows, id) <==> SavesLate(s, a, id)
  {}

  /** Nothing but such a save makes a deleted row live again. */
  lemma OnlyLateSavesRevive(s: State, a: Action, id: FileId)
    requires Inv(s) && Fresh(s, a) && DeletionDone(s, id) && !Live(s.store.rows, id)
    ensures DeletionDone(Step(s, a), id)
    ensures Live(Step(s, a).store.rows, id) <==> SavesLate(s, a, id)
  {
    hide Step, Live, SavesLate;
    DeletionStaysDone(s, a, id);
    DeletedIsSaved(s, id);
    if a.Advance? && a.i < |s.tasks| { TaskIsOk(s, a.i); }
    hide Inv, DeletionDone, UploadAt;
    LiveAfterStep(s, a, id);
  }

  lemma StaysWithoutCompletion(s: State, a: Action, id: FileId)
    requires Inv(s) && Fresh(s, a) && DeletionDone(s, id) && !Live(s.store.rows, id) && !CompletionPending(s, id)
    ensures !Live(Step(s, a).store.rows, id) && !CompletionPending(Step(s, a), id)
  {
    OnlyLateSavesRevive(s, a, id);
    hide Inv, DeletionDone;
    if a.Advance? && a.i < |s.tasks| {
      AdvanceReplacesOne(s, a.i);
      TasksAfter(s, a.i, Step(s, a).tasks[a.i], Step(s, a).store);
    }
  }

  lemma {:induction false} DeletedStaysWithoutCompletion(s: State, actions: seq<Action>, id: FileId)
    requires Inv(s) && DeletionDone(s, id) && !Live(s.store.rows, id) && !CompletionPending(s, id) && Admissible(s, actions)
    ensures var s' := Run(s, actions);
            DeletionDone(s', id) && !Live(s'.store.rows, id) && !CompletionPending(s', id)
  {
    hide Inv, DeletionDone, CompletionPending, Step, Fresh;
    if actions != [] {
      var init, a := actions[..|actions| - 1], actions[|actions| - 1];
      DeletedStaysWithoutCompletion(s, init, id);
      RunKeepsInv(s, init);
      OnlyLateSavesRevive(Run(s, init), a, id);
      StaysWithoutCompletion(Run(s, init), a, id);
    }
  }

  /**
   * After a deletion has reached its row, the file can become live again, then without an object,
   * exactly when a completion of it that fetched the row earlier is still to save it.
   */
  lemma DeletedRowReturnsExactly(s: State, id: FileId)
    requires Inv(s) && DeletionDone(s, id) && !Live(s.store.rows, id)
    ensures (exists actions :: Admissible(s, actions) && Live(Run(s, actions).store.rows, id)) <==> CompletionPending(s, id)
  {
    hide Inv, DeletionDone, Step, Fresh;
    if CompletionPending(s, id) {
      var t :| t in s.tasks && t.Completing? && t.id == id && t.at''.Fetched?;
      var i :| 0 <= i < |s.tasks| && s.tasks[i] == t;
      TaskIsOk(s, i);
      AdvanceAlone(s, i);
      RunOfOne(s, Advance(i));
      assert Admissible(s, [Advance(i)]) && Live(Run(s, [Advance(i)]).store.rows, id);
    } else {
      forall actions | Admissible(s, actions) ensures !Live(Run(s, actions).store.rows, id) {
        DeletedStaysWithoutCompletion(s, actions, id);
      }
    }
  }

  lemma RunOfOne(s: State, a: Action)
    requires Fresh(s, a)
    ensures Admissible(s, [a]) && Run(s, [a]) == Step(s, a)
  {
    hide Step, Fresh;
    var one := [a];
    assert one[..|one| - 1] == [] && Run(s, []) == s && Admissible(s, []);
  }

  lemma AdvanceAlone(s: State, i: nat)
    requires i < |s.tasks| && s.tasks[i].Completing?
    ensures Fresh(s, Advance(i)) && Step(s, Advance(i)) == AdvanceComplete(s, i)
  {}

  ghost predicate NeverSavesLate(s: State, actions: seq<Action>, id: FileId) {
    forall n :: 0 <= n < |actions| ==> !SavesLate(Run(s, actions[..n]), actions[n], id)
  }

  lemma LiveUntilDeleted(s: State, a: Action, id: FileId)
    requires Inv(s) && Fresh(s, a) && (DeletionDone(s, id) ==> !Live(s.store.rows, id)) && !SavesLate(s, a, id)
    ensures DeletionDone(Step(s, a), id) ==> !Live(Step(s, a).store.rows, id)
  {
    if DeletionDone(s, id) {
      OnlyLateSavesRevive(s, a, id);
    } else if a.Advance? && a.i < |s.tasks| {
      hide Inv, Fresh;
      AdvanceReplacesOne(s, a.i);
      TasksAfter(s, a.i, Step(s, a).tasks[a.i], Step(s, a).store);
    }
  }

  /**
   * As long as no completion saves a row that was deleted after it was fetched, a live row lacks
   * its object only while a deletion of it is halfway.
   */
  lemma {:induction false} WithoutLateSavesRowsHaveObjects(actions: seq<Action>, id: FileId)
    requires Admissible(Start(), actions) && NeverSavesLate(Start(), actions, id)
    ensures var s := Run(Start(), actions);
            && (DeletionDone(s, id) ==> !Live(s.store.rows, id))
            && (id in s.uploads && Live(s.store.rows, id) ==>
                  id in s.keyOf && (s.keyOf[id] !in s.store.objects <==> DeletionHalfway(s, id)))
  {
    hide Step, DeletionDone, DeletionHalfway, UploadAt, SavesLate, Fresh;
    if actions != [] {
      var init, a := actions[..|actions| - 1], actions[|actions| - 1];
      assert forall n :: 0 <= n < |init| ==> init[..n] == actions[..n];
      WithoutLateSavesRowsHaveObjects(init, id);
      RunKeepsInv(Start(), init);
      LiveUntilDeleted(Run(Start(), init), a, id);
    } else {
      NothingDone(id);
    }
    if id in Run(Start(), actions).uploads { RowsAndObjectsAgree(actions, id); }
  }

  lemma NothingDone(id: FileId)
    ensures !DeletionDone(Start(), id)
  {}

  /** An upload, a completion that fetches the row, a whole deletion, and the save of the completion. */
  function LateSave(id: FileId, key: string, file: Upload, now: int, size: int): seq<Action> {
    [StartUpload(id, key, file, now), Advance(0), Advance(0), StartComplete(id, size), Advance(1),
     StartDelete(id, Some(file.userId)), Advance(2), Advance(2), Advance(2), Advance(1)]
  }

  /** The state after the first n actions of a run, worked out step by step. */
  ghost predicate Reaches(run: seq<Action>, n: nat, s: State)
    requires n <= |run|
  {
    Admissible(Start(), run[..n]) && Run(Start(), run[..n]) == s
  }

  lemma ReachesNext(run: seq<Action>, n: nat, s: State)
    requires n < |run| && Reaches(run, n, s) && Fresh(s, run[n])
    ensures Reaches(run, n + 1, Step(s, run[n]))
  {
    assert run[..n + 1][..n] == run[..n];
  }

  function UploadedState(id: FileId, key: string, file: Upload, now: int, more: seq<Task>): State {
    State(Store(map[id := UploadedRow(file, key, now)], map[key := file.bytes]),
          [Uploading(id, key, file, now, Saved)] + more, map[id := key], map[id := file])
  }

  function PutState(id: FileId, key: string, file: Upload, now: int): State {
    State(Store(map[], map[key := file.bytes]), [Uploading(id, key, file, now, Put)], map[id := key], map[id := file])
  }

  lemma LateSavePuts(id: FileId, key: string, file: Upload, now: int, size: int)
    ensures Reaches(LateSave(id, key, file, now, size), 2, PutState(id, key, file, now))
  {
    var run := LateSave(id, key, file, now, size);
    var begun := PutState(id, key, file, now).(store := Store(map[], map[]), tasks := [Uploading(id, key, file, now, Begun)]);
    assert Reaches(run, 0, Start());
    hide Reaches, Run, Admissible, UploadedRow, AdvanceDelete, AdvanceComplete;
    ReachesNext(run, 0, Start());
    assert Step(Start(), run[0]) == begun;
    ReachesNext(run, 1, begun);
    assert Step(begun, run[1]) == PutState(id, key, file, now);
  }

  lemma LateSaveUploads(id: FileId, key: string, file: Upload, now: int, size: int)
    ensures Reaches(LateSave(id, key, file, now, size), 3, UploadedState(id, key, file, now, []))
  {
    var run, put := LateSave(id, key, file, now, size), PutState(id, key, file, now);
    LateSavePuts(id, key, file, now, size);
    hide Reaches, Run, Admissible, UploadedRow, AdvanceDelete, AdvanceComplete;
    ReachesNext(run, 2, put);
    assert Step(put, run[2]) == UploadedState(id, key, file, now, []);
  }

  lemma LateSaveFetches(id: FileId, key: string, file: Upload, now: int, size: int)
    ensures Reaches(LateSave(id, key, file, now, size), 5,
                    UploadedState(id, key, file, now, [Completing(id, size, Fetched(UploadedRow(file, key, now)))]))
  {
    var run, row := LateSave(id, key, file, now, size), UploadedRow(file, key, now);
    LateSaveUploads(id, key, file, now, size);
    hide Reaches, Run, Admissible, AdvanceDelete, AdvanceUpload;
    var saved := UploadedState(id, key, file, now, []);
    var called := UploadedState(id, key, file, now, [Completing(id, size, Called)]);
    ReachesNext(run, 3, saved);
    assert Step(saved, run[3]) == called;
    ReachesNext(run, 4, called);
    assert Step(called, run[4]) == UploadedState(id, key, file, now, [Completing(id, size, Fetched(row))]);
  }

  lemma LateSaveFinds(id: FileId, key: string, file: Upload, now: int, size: int)
    ensures Reaches(LateSave(id, key, file, now, size), 7,
                    UploadedState(id, key, file, now, [Completing(id, size, Fetched(UploadedRow(file, key, now))),
                                                       Deleting(id, Some(file.userId), false, Found(key))]))
  {
    var run, completing := LateSave(id, key, file, now, size), Completing(id, size, Fetched(UploadedRow(file, key, now)));
    var deleting := Deleting(id, Some(file.userId), false, Asked);
    var fetched := UploadedState(id, key, file, now, [completing]);
    LateSaveFetches(id, key, file, now, size);
    hide Reaches, Run, Admissible, AdvanceUpload, AdvanceComplete;
    ReachesNext(run, 5, fetched);
    var asked := UploadedState(id, key, file, now, [completing, deleting]);
    assert Step(fetched, run[5]) == asked;
    ReachesNext(run, 6, asked);
    assert Step(asked, run[6]) == UploadedState(id, key, file, now, [completing, deleting.(at' := Found(key))]);
  }

  lemma LateSaveDeletes(id: FileId, key: string, file: Upload, now: int, size: int)
    ensures var row := UploadedRow(file, key, now);
            Reaches(LateSave(id, key, file, now, size), 9,
                    UploadedState(id, key, file, now,
                                  [Completing(id, size, Fetched(row)), Deleting(id, Some(file.userId), false, Deleted)])
                      .(store := Store(map[id := row.(deleted := true)], map[])))
  {
    var run, row := LateSave(id, key, file, now, size), UploadedRow(file, key, now);
    var completing, deleting := Completing(id, size, Fetched(row)), Deleting(id, Some(file.userId), false, Found(key));
    var found := UploadedState(id, key, file, now, [completing, deleting]);
    LateSaveFinds(id, key, file, now, size);
    hide Reaches, Run, Admissible, UploadedRow, AdvanceUpload, AdvanceComplete;
    ReachesNext(run, 7, found);
    var emptied := UploadedState(id, key, file, now, [completing, deleting.(at' := Emptied(key))])
                     .(store := Store(map[id := row], map[]));
    assert Step(found, run[7]) == emptied;
    ReachesNext(run, 8, emptied);
    assert Step(emptied, run[8]) ==
           UploadedState(id, key, file, now, [completing, deleting.(at' := Deleted)])
             .(store := Store(map[id := row.(deleted := true)], map[]));
  }

  /** Such a run leaves every uploaded file live without its object, with no deletion halfway. */
  lemma DeletedFileReturnsWithoutObject(id: FileId, key: string, file: Upload, now: int, size: int)
    ensures var run := LateSave(id, key, file, now, size);
            var s := Run(Start(), run);
            Admissible(Start(), run) && Live(s.store.rows, id) && key !in s.store.objects && !DeletionHalfway(s, id)
  {
    var run, row := LateSave(id, key, file, now, size), UploadedRow(file, key, now);
    LateSaveDeletes(id, key, file, now, size);
    assert run[..10] == run;
    var deleted := Run(Start(), run[..9]);
    ReachesNext(run, 9, deleted);
    hide Admissible, Run;
    assert Step(deleted, run[9]) == AdvanceComplete(deleted, 1);
  }

  /** A deletion advanced by itself and left after n effects is the call that stops after n effects. */
  function Advanced(s: State, i: nat, n: nat): State
    decreases n
  {
    if n == 0 then s else Step(Advanced(s, i, n - 1), Advance(i))
  }

  lemma DeletionIsTheCall(s: State, i: nat, n: nat)
    requires i < |s.tasks| && s.tasks[i].Deleting? && s.tasks[i].at'.Asked? && n <= 2
    ensures var t := s.tasks[i];
            Advanced(s, i, 1 + n).store ==
              if t.hard then RemoveCall(s.store, t.id, n).0 else DeleteCall(s.store, t.id, t.user, n).0
  {
    hide Advanced;
    var s1 := AdvanceDelete(s, i);
    var s2 := AdvanceDelete(s1, i);
    AdvancedBy(s, i, 0);
    AdvancedBy(s, i, 1);
    AdvancedBy(s, i, 2);
  }

  /** An upload left after n effects is the call that stops after n effects. */
  lemma UploadIsTheCall(s: State, i: nat, n: nat)
    requires i < |s.tasks| && s.tasks[i].Uploading? && s.tasks[i].at.Begun? && n <= 2
    ensures var t := s.tasks[i];
            Advanced(s, i, n).store == UploadCall(s.store, t.id, t.key, t.file, t.now, n).0
  {
    hide Advanced;
    var s1 := AdvanceUpload(s, i);
    AdvancedBy(s, i, 0);
    AdvancedBy(s, i, 1);
  }

  /** A completion left after n effects is the call that stops after n effects. */
  lemma CompletionIsTheCall(s: State, i: nat, n: nat)
    requires i < |s.tasks| && s.tasks[i].Completing? && s.tasks[i].at''.Called? && n <= 1
    ensures var t := s.tasks[i]; Advanced(s, i, 1 + n).store == CompleteUploadCall(s.store, t.id, t.size, n).0
  {
    hide Advanced;
    AdvancedBy(s, i, 0);
    AdvancedBy(s, i, 1);
  }

  lemma AdvancedBy(s: State, i: nat, n: nat)
    ensures Advanced(s, i, 0) == s && Advanced(s, i, n + 1) == Step(Advanced(s, i, n), Advance(i))
  {}
}
