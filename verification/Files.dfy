/**
 * File rows and stored objects: src/modules/files/files.service.ts over
 * src/shared/services/storage.service.ts. A call may stop at an await: `stop` is the number of
 * its effects (on the store or on the table) that happen before it stops.
 */
module Files {
  import opened Prelude
  import opened StorageKeys

  type FileId = string
  type UserId = string
  type Bytes = seq<bv8>

  datatype Access = PUBLIC | PRIVATE

  /** A row of the files table; a soft-deleted row stays in the table. */
  datatype FileRow = FileRow(
    key: string, filename: string, originalName: string, size: int, mimeType: string, url: Option<string>,
    userId: Option<UserId>, access: Access, createdAt: int, deleted: bool)

  datatype Store = Store(rows: map<FileId, FileRow>, objects: map<string, Bytes>)

  datatype Error = NotFound | Forbidden | BadRequest | SaveFailed

  datatype Outcome = Done | Failed(error: Error) | Stopped

  predicate Live(rows: map<FileId, FileRow>, id: FileId) {
    id in rows && !rows[id].deleted
  }

  /** file.userId === userId for a defined userId; an undefined one equals no column value. */
  predicate Owns(user: Option<UserId>, row: FileRow) {
    user.Some? && row.userId == user
  }

  function UrlOf(key: string): string {
    "/uploads/" + key
  }

  /** A missing access level means PRIVATE. */
  datatype Upload = Upload(originalName: string, mimeType: string, bytes: Bytes, size: int, userId: UserId, access: Option<Access>)

  /** What both ways of adding a file ask generateKey for. */
  function NewKey(originalName: string, date: string, uuid: string): string {
    GenerateKey(originalName, Some("uploads"), date, uuid)
  }

  function UploadedRow(file: Upload, key: string, now: int): FileRow {
    FileRow(key, BaseNameOf(key), file.originalName, file.size, file.mimeType, Some(UrlOf(key)),
            Some(file.userId), file.access.GetOr(PRIVATE), now, false)
  }

  // ---- what the calls do -------------------------------------------------------------------

  /** uploadFile: the object is put, then the row is saved under an id the database generates. */
  function UploadCall(s: Store, id: FileId, key: string, file: Upload, now: int, stop: nat): (Store, Outcome) {
    if stop == 0 then (s, Stopped)
    else
      var put := s.(objects := s.objects[key := file.bytes]);
      if stop == 1 then (put, Stopped)
      else if id in s.rows then (put, Failed(SaveFailed))
      else (put.(rows := put.rows[id := UploadedRow(file, key, now)]), Done)
  }

  function PresignedRow(originalName: string, mimeType: string, key: string, user: UserId, access: Option<Access>, now: int): FileRow {
    FileRow(key, Split(key, '/')[|Split(key, '/')| - 1], originalName, 0, mimeType, None, Some(user), access.GetOr(PRIVATE), now, false)
  }

  /** getPresignedUploadUrl: a row without an object; refused unless objects are kept in S3. */
  function PresignCall(s: Store, s3: bool, id: FileId, row: FileRow, stop: nat): (Store, Outcome) {
    if !s3 then (s, Failed(BadRequest))
    else if stop == 0 then (s, Stopped)
    else if id in s.rows then (s, Failed(SaveFailed))
    else (s.(rows := s.rows[id := row]), Done)
  }

  function CompleteUploadCall(s: Store, id: FileId, size: int, stop: nat): (Store, Outcome) {
    if !Live(s.rows, id) then (s, Failed(NotFound))
    else if stop == 0 then (s, Stopped)
    else (s.(rows := s.rows[id := s.rows[id].(size := size, url := Some(UrlOf(s.rows[id].key)))]), Done)
  }

  /** deleteFile: the object goes first, then the row is soft-deleted. */
  function DeleteCall(s: Store, id: FileId, user: Option<UserId>, stop: nat): (Store, Outcome) {
    if !Live(s.rows, id) then (s, Failed(NotFound))
    else if !Owns(user, s.rows[id]) then (s, Failed(Forbidden))
    else if stop == 0 then (s, Stopped)
    else
      var gone := s.(objects := s.objects - {s.rows[id].key});
      if stop == 1 then (gone, Stopped)
      else (gone.(rows := s.rows[id := s.rows[id].(deleted := true)]), Done)
  }

  /** remove, for administrators: the object goes first, then the row. */
  function RemoveCall(s: Store, id: FileId, stop: nat): (Store, Outcome) {
    if !Live(s.rows, id) then (s, Failed(NotFound))
    else if stop == 0 then (s, Stopped)
    else
      var gone := s.(objects := s.objects - {s.rows[id].key});
      if stop == 1 then (gone, Stopped) else (gone.(rows := s.rows - {id}), Done)
  }

  lemma UploadsComeFirst(originalName: string, date: string, uuid: string)
    ensures "uploads/" + date + "/" + uuid + "-" <= NewKey(originalName, date, uuid)
  {
    assert PrefixPath(Some("uploads")) == "uploads/";
  }

  /** Both ways of adding a file give it the same filename column, and distinct UUIDs give distinct keys. */
  lemma NewFilesAreNamedAlike(file: Upload, date: string, uuid: string, now: int, uuid': string, other: string)
    requires IsDate(date) && IsUuid(uuid) && IsUuid(uuid')
    ensures var key := NewKey(file.originalName, date, uuid);
            && UploadedRow(file, key, now).filename
               == PresignedRow(file.originalName, file.mimeType, key, file.userId, file.access, now).filename
            && (uuid != uuid' ==> NewKey(other, date, uuid') != key)
            && "uploads/" + date + "/" + uuid + "-" <= key
  {
    UploadsComeFirst(file.originalName, date, uuid);
    hide Split, BaseNameOf, GenerateKey;
    KeyNamesAgree(file.originalName, Some("uploads"), date, uuid);
    if uuid != uuid' {
      DistinctIdsGiveDistinctKeys(file.originalName, Some("uploads"), date, uuid, other, Some("uploads"), date, uuid');
    }
  }

  /** Distinct keys have distinct urls; with local storage a url is the key below /uploads. */
  lemma UrlsAreDistinct(key: string, other: string)
    requires key != other
    ensures UrlOf(key) != UrlOf(other)
    ensures "/uploads/" <= UrlOf(key) && UrlOf(key)[9..] == key
  {
    assert UrlOf(key)[9..] == key && UrlOf(other)[9..] == other;
  }

  // ---- the code ----------------------------------------------------------------------------

  /** The object store, S3 or local: storing overwrites, deleting an absent object is a no-op. */
  class StorageService {
    const s3: bool
    var objects: map<string, Bytes>

    constructor (s3: bool)
      ensures this.s3 == s3 && objects == map[]
    {
      this.s3, objects := s3, map[];
    }

    method UploadBuffer(bytes: Bytes, filename: string, prefix: Option<string>, date: string, uuid: string)
      returns (key: string, url: string)
      modifies this
      ensures key == GenerateKey(filename, prefix, date, uuid)
      ensures objects == old(objects)[key := bytes] && url == UrlOf(key)
    {
      key := GenerateKey(filename, prefix, date, uuid);
      objects := objects[key := bytes];
      url := GetFileUrl(key);
    }

    method DeleteFile(key: string)
      modifies this
      ensures objects == old(objects) - {key}
    {
      if key in objects {
        objects := objects - {key};
      }
    }

    method GetFileUrl(key: string) returns (url: string)
      ensures url == UrlOf(key)
    {
      url := UrlOf(key);
    }
  }

  /** A fetched file: changing it does not change the table until it is saved. */
  class FileEntity {
    const id: FileId
    const fetched: FileRow
    var size: int
    var url: Option<string>

    function Columns(): FileRow
      reads this
    {
      fetched.(size := size, url := url)
    }

    constructor (id: FileId, row: FileRow)
      ensures this.id == id && fetched == row && Columns() == row
    {
      this.id, fetched, size, url := id, row, row.size, row.url;
    }
  }

  class FilesService {
    const storage: StorageService
    var rows: map<FileId, FileRow>

    constructor (storage: StorageService)
      ensures this.storage == storage && rows == map[]
    {
      this.storage, rows := storage, map[];
    }

    function Snapshot(): Store
      reads this, storage
    {
      Store(rows, storage.objects)
    }

    method FindOne(id: FileId) returns (found: Option<FileEntity>)
      ensures found.Some? <==> Live(rows, id)
      ensures found.Some? ==> fresh(found.value) && found.value.id == id && found.value.Columns() == rows[id] == found.value.fetched
    {
      if id in rows && !rows[id].deleted {
        var entity := new FileEntity(id, rows[id]);
        return Some(entity);
      }
      return None;
    }

    method UploadFile(newId: FileId, file: Upload, date: string, uuid: string, now: int, stop: nat) returns (r: Outcome)
      modifies this, storage
      ensures (Snapshot(), r) ==
                UploadCall(old(Snapshot()), newId, NewKey(file.originalName, date, uuid), file, now, stop)
      ensures r == if stop < 2 then Stopped else if newId in old(rows) then Failed(SaveFailed) else Done
      ensures r != Done ==> rows == old(rows)
      ensures storage.objects == if stop == 0 then old(storage.objects)
                                 else old(storage.objects)[GenerateKey(file.originalName, Some("uploads"), date, uuid) := file.bytes]
      ensures r == Done ==>
                && newId in rows && rows == old(rows)[newId := rows[newId]]
                && var row := rows[newId];
                && row.originalName == file.originalName && row.size == file.size && row.mimeType == file.mimeType
                && row.userId == Some(file.userId) && row.access == (if file.access.Some? then file.access.value else PRIVATE)
                && row.createdAt == now && !row.deleted
                && row.key == GenerateKey(file.originalName, Some("uploads"), date, uuid)
                && row.filename == BaseNameOf(row.key) && row.url == Some(UrlOf(row.key))
    {
      if stop == 0 {
        return Stopped;
      }
      var key, url := storage.UploadBuffer(file.bytes, file.originalName, Some("uploads"), date, uuid);
      if stop == 1 {
        return Stopped;
      }
      if newId in rows {
        return Failed(SaveFailed);
      }
      rows := rows[newId := FileRow(
                                 key, BaseNameOf(key), file.originalName, file.size, file.mimeType, Some(url),
                                 Some(file.userId), file.access.GetOr(PRIVATE), now, false)];
      return Done;
    }

    method GetPresignedUploadUrl(newId: FileId, filename: string, contentType: string, user: UserId, access: Option<Access>,
                                 date: string, uuid: string, now: int, stop: nat) returns (r: Outcome)
      modifies this
      ensures (Snapshot(), r) ==
                PresignCall(old(Snapshot()), storage.s3, newId,
                            PresignedRow(filename, contentType, NewKey(filename, date, uuid), user, access, now), stop)
      ensures r == if !storage.s3 then Failed(BadRequest) else if stop == 0 then Stopped
                   else if newId in old(rows) then Failed(SaveFailed) else Done
      ensures r != Done ==> rows == old(rows)
      ensures r == Done ==>
                && newId in rows && rows == old(rows)[newId := rows[newId]]
                && var row := rows[newId];
                && row.key == GenerateKey(filename, Some("uploads"), date, uuid)
                && row.originalName == filename && row.size == 0 && row.mimeType == contentType && row.url == None
                && row.userId == Some(user) && row.access == (if access.Some? then access.value else PRIVATE)
                && row.createdAt == now && !row.deleted
    {
      var key := GenerateKey(filename, Some("uploads"), date, uuid);
      if !storage.s3 {
        return Failed(BadRequest);
      }
      if stop == 0 {
        return Stopped;
      }
      if newId in rows {
        return Failed(SaveFailed);
      }
      rows := rows[newId := PresignedRow(filename, contentType, key, user, access, now)];
      return Done;
    }

    method CompleteUpload(id: FileId, size: int, stop: nat) returns (r: Outcome)
      modifies this
      ensures (Snapshot(), r) == CompleteUploadCall(old(Snapshot()), id, size, stop)
      ensures r == Failed(NotFound) <==> id !in old(rows) || old(rows)[id].deleted
      ensures r == Done ==>
                && id in old(rows)
                && rows == old(rows)[id := old(rows)[id].(size := size, url := Some(UrlOf(old(rows)[id].key)))]
      ensures r == Stopped <==> stop == 0 && id in old(rows) && !old(rows)[id].deleted
      ensures r != Done ==> rows == old(rows)
    {
      var found := FindOne(id);
      if found.None? {
        return Failed(NotFound);
      }
      var file := found.value;
      file.size := size;
      var url := storage.GetFileUrl(file.fetched.key);
      file.url := Some(url);
      if stop == 0 {
        return Stopped;
      }
      rows := rows[id := file.Columns()];
      return Done;
    }

    method DeleteFile(id: FileId, user: Option<UserId>, stop: nat) returns (r: Outcome)
      modifies this, storage
      ensures (Snapshot(), r) == DeleteCall(old(Snapshot()), id, user, stop)
      ensures r == Failed(NotFound) <==> id !in old(rows) || old(rows)[id].deleted
      ensures r == Failed(Forbidden) <==>
                id in old(rows) && !old(rows)[id].deleted && (user.None? || old(rows)[id].userId != user)
      ensures r == Done ==>
                && id in old(rows) && rows == old(rows)[id := old(rows)[id].(deleted := true)]
                && storage.objects == old(storage.objects) - {old(rows)[id].key}
      ensures r != Done ==> rows == old(rows)
      ensures r == Stopped ==>
                && id in old(rows) && stop <= 1
                && storage.objects == if stop == 0 then old(storage.objects) else old(storage.objects) - {old(rows)[id].key}
      ensures r.Failed? ==> storage.objects == old(storage.objects) && r.error in {NotFound, Forbidden}
    {
      var found := FindOne(id);
      if found.None? {
        return Failed(NotFound);
      }
      var file := found.value.fetched;
      if !Owns(user, file) {
        return Failed(Forbidden);
      }
      if stop == 0 {
        return Stopped;
      }
      storage.DeleteFile(file.key);
      if stop == 1 {
        return Stopped;
      }
      rows := rows[id := rows[id].(deleted := true)];
      return Done;
    }

    method Remove(id: FileId, stop: nat) returns (r: Outcome)
      modifies this, storage
      ensures (Snapshot(), r) == RemoveCall(old(Snapshot()), id, stop)
      ensures r == Failed(NotFound) <==> id !in old(rows) || old(rows)[id].deleted
      ensures r == Done ==>
                && id in old(rows) && rows == old(rows) - {id}
                && storage.objects == old(storage.objects) - {old(rows)[id].key}
      ensures r != Done ==> rows == old(rows)
      ensures r == Stopped ==>
                && id in old(rows) && stop <= 1
                && storage.objects == if stop == 0 then old(storage.objects) else old(storage.objects) - {old(rows)[id].key}
      ensures r.Failed? ==> storage.objects == old(storage.objects) && r.error in {NotFound, Forbidden}
    {
      var found := FindOne(id);
      if found.None? {
        return Failed(NotFound);
      }
      if stop == 0 {
        return Stopped;
      }
      storage.DeleteFile(found.value.fetched.key);
      if stop == 1 {
        return Stopped;
      }
      rows := rows - {id};
      return Done;
    }
  }

  // ---- stopped deletions and their retry ---------------------------------------------------

  datatype Op =
    | UploadFile(newId: FileId, key: string, file: Upload, now: int, stop: nat)
    | Presign(s3: bool, newId: FileId, row: FileRow, stop: nat)
    | ClientPut(key: string, bytes: Bytes)  // a client uses a presigned URL
    | CompleteUpload(id: FileId, size: int, stop: nat)
    | Delete(id: FileId, user: Option<UserId>, stop: nat)
    | Remove(id: FileId, stop: nat)

  function Apply(s: Store, op: Op): (Store, Outcome) {
    match op
    case UploadFile(id, key, file, now, stop) => UploadCall(s, id, key, file, now, stop)
    case Presign(s3, id, row, stop) => PresignCall(s, s3, id, row, stop)
    case ClientPut(key, bytes) => (s.(objects := s.objects[key := bytes]), Done)
    case CompleteUpload(id, size, stop) => CompleteUploadCall(s, id, size, stop)
    case Delete(id, user, stop) => DeleteCall(s, id, user, stop)
    case Remove(id, stop) => RemoveCall(s, id, stop)
  }

  function Run(s: Store, ops: seq<Op>): Store {
    if ops == [] then s else Apply(Run(s, ops[..|ops| - 1]), ops[|ops| - 1]).0
  }

  predicate Deletes(op: Op, id: FileId) {
    (op.Delete? || op.Remove?) && op.id == id
  }

  /** An attempt to delete the file that stops before it reaches the row. */
  predicate StopsEarly(op: Op, id: FileId) {
    Deletes(op, id) && op.stop <= 1
  }

  /** The operations without the stopped attempts. */
  function WithoutStopped(ops: seq<Op>, id: FileId): seq<Op> {
    if ops == [] then []
    else WithoutStopped(ops[..|ops| - 1], id) + if StopsEarly(ops[|ops| - 1], id) then [] else [ops[|ops| - 1]]
  }

  /** Equal up to the object that the file's row points to. */
  ghost predicate SameButObject(a: Store, b: Store, id: FileId) {
    a.rows == b.rows && if id in a.rows then a.objects - {a.rows[id].key} == b.objects - {a.rows[id].key} else a.objects == b.objects
  }

  /** The same write to both stores keeps objects equal up to a key. */
  lemma SameWrites(a: map<string, Bytes>, b: map<string, Bytes>, key: string, k: string, bytes: Bytes)
    requires a - {key} == b - {key}
    ensures a[k := bytes] - {key} == b[k := bytes] - {key} && (a - {k}) - {key} == (b - {k}) - {key}
    ensures k == key ==> a[k := bytes] == b[k := bytes] && a - {k} == b - {k}
  {
    var x, y := a - {key}, b - {key};
    assert forall n :: n != key ==> (n in a <==> n in x) && (n in b <==> n in y);
    assert forall n :: n != key && n in a ==> a[n] == x[n] && b[n] == y[n];
  }

  lemma StepKeepsSame(a: Store, b: Store, op: Op, id: FileId)
    requires SameButObject(a, b, id)
    ensures SameButObject(Apply(a, op).0, Apply(b, op).0, id) && Apply(a, op).1 == Apply(b, op).1
  {
    if id in a.rows {
      var key := a.rows[id].key;
      if op.UploadFile? || op.ClientPut? {
        SameWrites(a.objects, b.objects, key, op.key, if op.UploadFile? then op.file.bytes else op.bytes);
      } else if op.Delete? || op.Remove? {
        if op.id in a.rows { SameWrites(a.objects, b.objects, key, a.rows[op.id].key, []); }
      }
    }
  }

  lemma StoppedAttemptIsInvisible(a: Store, b: Store, op: Op, id: FileId)
    requires SameButObject(a, b, id) && StopsEarly(op, id)
    ensures SameButObject(Apply(a, op).0, b, id)
  {}

  lemma {:induction false} StoppedAttemptsAreInvisible(s: Store, ops: seq<Op>, id: FileId)
    ensures SameButObject(Run(s, ops), Run(s, WithoutStopped(ops, id)), id)
  {
    if ops != [] {
      var init, op := ops[..|ops| - 1], ops[|ops| - 1];
      StoppedAttemptsAreInvisible(s, init, id);
      if StopsEarly(op, id) {
        StoppedAttemptIsInvisible(Run(s, init), Run(s, WithoutStopped(init, id)), op, id);
        assert WithoutStopped(ops, id) == WithoutStopped(init, id);
      } else {
        StepKeepsSame(Run(s, init), Run(s, WithoutStopped(init, id)), op, id);
        assert WithoutStopped(ops, id)[..|WithoutStopped(init, id)|] == WithoutStopped(init, id);
      }
    }
  }

  /**
   * A later completed retry makes good any number of stopped deletions of a file, whatever other
   * operations ran in between: rows and objects end up as if the stopped attempts had not been made.
   */
  lemma RetryConverges(s: Store, ops: seq<Op>, id: FileId, retry: Op)
    requires Deletes(retry, id) && retry.stop >= 2
    ensures Apply(Run(s, ops), retry).1 == Apply(Run(s, WithoutStopped(ops, id)), retry).1
    ensures Apply(Run(s, ops), retry).1 == Done ==>
              Apply(Run(s, ops), retry).0 == Apply(Run(s, WithoutStopped(ops, id)), retry).0
  {
    StoppedAttemptsAreInvisible(s, ops, id);
  }

  /** In particular: any number of stopped attempts and one completed retry do what one uninterrupted call does. */
  lemma {:induction false} OnlyStoppedAttemptsThenRetry(s: Store, attempts: seq<Op>, id: FileId, retry: Op)
    requires forall op :: op in attempts ==> StopsEarly(op, id)
    requires Deletes(retry, id) && retry.stop >= 2 && Apply(s, retry).1 == Done
    ensures Apply(Run(s, attempts), retry) == Apply(s, retry)
  {
    NothingIsLeft(attempts, id);
    RetryConverges(s, attempts, id, retry);
  }

  lemma {:induction false} NothingIsLeft(attempts: seq<Op>, id: FileId)
    requires forall op :: op in attempts ==> StopsEarly(op, id)
    ensures WithoutStopped(attempts, id) == []
  {
    if attempts != [] { NothingIsLeft(attempts[..|attempts| - 1], id); }
  }
}
