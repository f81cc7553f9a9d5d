/**
 * What users see of the files table: getFile, getFiles, getUserFiles and findAll of
 * src/modules/files/files.service.ts, and how they agree with each other and with deleteFile.
 */
module FileViews {
  import opened Prelude
  import opened Files

  type Rows = map<FileId, FileRow>

  /** Every row once, newest first; rows of the same instant stand in some fixed order. */
  ghost predicate IsListing(rows: Rows, order: seq<FileId>) {
    (forall id :: id in order <==> id in rows) && Distinct(order) && NewestFirst(rows, order)
  }

  /** find: the live rows that meet a condition, in the order of the listing. */
  function Select(rows: Rows, order: seq<FileId>, where': FileRow -> bool): seq<FileId> {
    if order == [] then []
    else
      var last := order[|order| - 1];
      Select(rows, order[..|order| - 1], where') + if Live(rows, last) && where'(rows[last]) then [last] else []
  }

  function VisibleTo(user: UserId): FileRow -> bool {
    (row: FileRow) => row.userId == Some(user) || row.access == PUBLIC
  }

  function OwnedBy(user: UserId): FileRow -> bool {
    (row: FileRow) => row.userId == Some(user)
  }

  function All(): FileRow -> bool {
    (row: FileRow) => true
  }

  function WithUrl(row: FileRow): FileRow {
    if row.key == "" then row else row.(url := Some(UrlOf(row.key)))
  }

  function GetFileCall(rows: Rows, id: FileId, user: Option<UserId>): Result<FileRow, Error> {
    if !Live(rows, id) then Err(NotFound)
    else if rows[id].access == PRIVATE && !Owns(user, rows[id]) then Err(Forbidden)
    else Ok(WithUrl(rows[id]))
  }

  // ---- the code ----------------------------------------------------------------------------

  method GetFile(service: FilesService, id: FileId, user: Option<UserId>) returns (r: Result<FileRow, Error>)
    ensures r == GetFileCall(service.rows, id, user)
    ensures r == Err(NotFound) <==> id !in service.rows || service.rows[id].deleted
    ensures r == Err(Forbidden) <==>
              && id in service.rows && !service.rows[id].deleted && service.rows[id].access == PRIVATE
              && (user.None? || service.rows[id].userId != user)
    ensures r.Ok? ==>
              && var row := service.rows[id];
              r.value == row.(url := if row.key == "" then row.url else Some(UrlOf(row.key)))
    ensures r.Err? ==> r.error in {NotFound, Forbidden}
  {
    var found := service.FindOne(id);
    if found.None? {
      return Err(NotFound);
    }
    var file := found.value;
    if file.fetched.access == PRIVATE && !Owns(user, file.fetched) {
      return Err(Forbidden);
    }
    if file.fetched.key != "" {
      var url := service.storage.GetFileUrl(file.fetched.key);
      file.url := Some(url);
    }
    return Ok(file.Columns());
  }

  ghost predicate Fetched(files: seq<FileEntity>, rows: Rows, ids: seq<FileId>)
    reads files
  {
    && |files| == |ids|
    && (forall i, k :: 0 <= i < k < |files| ==> files[i] != files[k])
    && (forall i :: 0 <= i < |files| ==> files[i].id == ids[i] && ids[i] in rows && files[i].fetched == rows[ids[i]])
  }

  method Find(service: FilesService, order: seq<FileId>, where': FileRow -> bool) returns (files: seq<FileEntity>)
    ensures fresh(files) && Fetched(files, service.rows, Select(service.rows, order, where'))
    ensures forall f :: f in files ==> f.Columns() == f.fetched
  {
    files := [];
    assert order[..0] == [];
    for n := 0 to |order|
      invariant fresh(files) && Fetched(files, service.rows, Select(service.rows, order[..n], where'))
      invariant forall f :: f in files ==> f.Columns() == f.fetched
    {
      assert order[..n + 1][..n] == order[..n];
      var id := order[n];
      if id in service.rows && !service.rows[id].deleted && where'(service.rows[id]) {
        var file := new FileEntity(id, service.rows[id]);
        files := files + [file];
      }
    }
    assert order[..|order|] == order;
  }

  method GetFiles(service: FilesService, order: seq<FileId>, user: UserId) returns (files: seq<FileEntity>)
    ensures fresh(files) && Fetched(files, service.rows, Select(service.rows, order, VisibleTo(user)))
    ensures forall f :: f in files ==> f.Columns() == WithUrl(f.fetched)
    ensures forall f :: f in files ==>
              f.Columns() == f.fetched.(url := if f.fetched.key == "" then f.fetched.url else Some(UrlOf(f.fetched.key)))
  {
    hide Select, VisibleTo;
    files := Find(service, order, VisibleTo(user));
    for n := 0 to |files|
      invariant Fetched(files, service.rows, Select(service.rows, order, VisibleTo(user)))
      invariant forall i :: 0 <= i < |files| ==> files[i].Columns() == if i < n then WithUrl(files[i].fetched) else files[i].fetched
      modifies files
    {
      var file := files[n];
      if file.fetched.key != "" {
        var url := service.storage.GetFileUrl(file.fetched.key);
        file.url := Some(url);
      }
    }
  }

  method GetUserFiles(service: FilesService, order: seq<FileId>, user: UserId) returns (files: seq<FileEntity>)
    ensures fresh(files) && Fetched(files, service.rows, Select(service.rows, order, OwnedBy(user)))
    ensures forall f :: f in files ==> f.Columns() == f.fetched
  {
    files := Find(service, order, OwnedBy(user));
  }

  // ---- the views agree ---------------------------------------------------------------------

  lemma {:induction false} SelectedExactly(rows: Rows, order: seq<FileId>, where': FileRow -> bool)
    ensures forall id :: id in Select(rows, order, where') <==> id in order && Live(rows, id) && where'(rows[id])
  {
    if order != [] {
      var init, last := order[..|order| - 1], order[|order| - 1];
      SelectedExactly(rows, init, where');
      assert forall id :: id in order <==> id in init || id == last;
    }
  }

  ghost predicate Distinct(ids: seq<FileId>) {
    forall i, k :: 0 <= i < k < |ids| ==> ids[i] != ids[k]
  }

  ghost predicate NewestFirst(rows: Rows, ids: seq<FileId>) {
    && (forall id :: id in ids ==> id in rows)
    && (forall i, k :: 0 <= i < k < |ids| ==> rows[ids[i]].createdAt >= rows[ids[k]].createdAt)
  }

  lemma {:induction false} SelectedOnce(rows: Rows, order: seq<FileId>, where': FileRow -> bool)
    requires Distinct(order)
    ensures Distinct(Select(rows, order, where'))
  {
    if order != [] {
      var init, last := order[..|order| - 1], order[|order| - 1];
      SelectedOnce(rows, init, where');
      SelectedExactly(rows, init, where');
      var s := Select(rows, init, where');
      forall i | 0 <= i < |s| ensures s[i] != last {
        assert s[i] in s && s[i] in init;
      }
    }
  }

  lemma {:induction false} SelectedNewestFirst(rows: Rows, order: seq<FileId>, where': FileRow -> bool)
    requires NewestFirst(rows, order)
    ensures NewestFirst(rows, Select(rows, order, where'))
  {
    if order != [] {
      var init, last := order[..|order| - 1], order[|order| - 1];
      SelectedNewestFirst(rows, init, where');
      SelectedExactly(rows, init, where');
      var s := Select(rows, init, where');
      forall i | 0 <= i < |s| ensures s[i] in rows && rows[s[i]].createdAt >= rows[last].createdAt {
        assert s[i] in s && s[i] in init;
        var n :| 0 <= n < |init| && init[n] == s[i];
        assert rows[order[n]].createdAt >= rows[order[|order| - 1]].createdAt;
      }
    }
  }

  lemma {:induction false} SelectTwice(rows: Rows, order: seq<FileId>, wide: FileRow -> bool, narrow: FileRow -> bool)
    requires forall row :: narrow(row) ==> wide(row)
    ensures Select(rows, Select(rows, order, wide), narrow) == Select(rows, order, narrow)
  {
    if order != [] {
      var init, last := order[..|order| - 1], order[|order| - 1];
      SelectTwice(rows, init, wide, narrow);
      var s := Select(rows, init, wide);
      if Live(rows, last) && wide(rows[last]) {
        var more := s + [last];
        assert Select(rows, order, wide) == more;
        assert more[..|more| - 1] == s && more[|more| - 1] == last;
      } else {
        assert Select(rows, order, wide) == s;
        assert Live(rows, last) ==> !narrow(rows[last]);
      }
    }
  }

  /** getFiles lists each file once, newest first, and exactly the files that getFile gives the user. */
  lemma ListedAreTheReadable(rows: Rows, order: seq<FileId>, user: UserId)
    requires IsListing(rows, order)
    ensures var listed := Select(rows, order, VisibleTo(user));
            && Distinct(listed) && NewestFirst(rows, listed)
            && (forall id :: id in listed <==> GetFileCall(rows, id, Some(user)).Ok?)
  {
    SelectedOnce(rows, order, VisibleTo(user));
    SelectedExactly(rows, order, VisibleTo(user));
    SelectedNewestFirst(rows, order, VisibleTo(user));
  }

  /** getUserFiles is getFiles narrowed to the user's own, in the same order, and exactly what deleteFile accepts. */
  lemma OwnFilesAreTheDeletable(s: Store, order: seq<FileId>, user: UserId, stop: nat)
    requires IsListing(s.rows, order) && stop >= 2
    ensures var own := Select(s.rows, order, OwnedBy(user));
            && own == Select(s.rows, Select(s.rows, order, VisibleTo(user)), OwnedBy(user))
            && (forall id :: id in own <==> DeleteCall(s, id, Some(user), stop).1 == Done)
  {
    SelectTwice(s.rows, order, VisibleTo(user), OwnedBy(user));
    SelectedExactly(s.rows, order, OwnedBy(user));
  }

  /** An uploaded file can be read by its uploader, and by others exactly if it was uploaded as PUBLIC. */
  lemma UploadedIsReadable(s: Store, id: FileId, key: string, file: Upload, now: int, stop: nat, user: Option<UserId>)
    requires UploadCall(s, id, key, file, now, stop).1 == Done
    ensures GetFileCall(UploadCall(s, id, key, file, now, stop).0.rows, id, user).Ok? <==>
              file.access == Some(PUBLIC) || user == Some(file.userId)
  {}

  /** So can a file added by a presigned URL. */
  lemma PresignedIsReadable(s: Store, s3: bool, id: FileId, name: string, mimeType: string, key: string, owner: UserId,
                            access: Option<Access>, now: int, stop: nat, user: Option<UserId>)
    requires PresignCall(s, s3, id, PresignedRow(name, mimeType, key, owner, access, now), stop).1 == Done
    ensures GetFileCall(PresignCall(s, s3, id, PresignedRow(name, mimeType, key, owner, access, now), stop).0.rows, id, user).Ok? <==>
              access == Some(PUBLIC) || user == Some(owner)
  {}

  // ---- pages -------------------------------------------------------------------------------

  /** skip and take, as the database applies them to an ordered list. */
  function Page(list: seq<FileId>, skip: nat, take: nat): (r: seq<FileId>)
    ensures |r| <= take && (skip >= |list| ==> r == [])
  {
    if skip >= |list| then [] else list[skip..Min(skip + take, |list|)]
  }

  /** findAll: the files of one page, and the total. */
  function FindAll(list: seq<FileId>, page: nat, limit: nat): (seq<FileId>, nat)
    requires page >= 1 && limit >= 1
  {
    (Page(list, (page - 1) * limit, limit), |list|)
  }

  function Pages(list: seq<FileId>, limit: nat, n: nat): seq<FileId>
    requires limit >= 1
  {
    if n == 0 then [] else Pages(list, limit, n - 1) + FindAll(list, n, limit).0
  }

  function Min(a: nat, b: nat): nat {
    if a <= b then a else b
  }

  lemma {:induction false} PagesAreAPrefix(list: seq<FileId>, limit: nat, n: nat)
    requires limit >= 1
    ensures Pages(list, limit, n) == list[..Min(n * limit, |list|)]
  {
    if n > 0 {
      PagesAreAPrefix(list, limit, n - 1);
      assert n * limit == (n - 1) * limit + limit;
    } else {
      assert n * limit == 0;
    }
  }

  function PageCount(total: nat, limit: nat): nat
    requires limit >= 1
  {
    (total + limit - 1) / limit
  }

  lemma Scaled(a: nat, b: nat, limit: nat)
    requires a <= b
    ensures a * limit <= b * limit
  {}

  lemma PageCountCovers(total: nat, limit: nat, page: nat)
    requires limit >= 1
    ensures PageCount(total, limit) * limit >= total
    ensures page > PageCount(total, limit) ==> (page - 1) * limit >= total
  {
    var n, last := PageCount(total, limit), (total + limit - 1) % limit;
    assert total + limit - 1 == n * limit + last;
    assert last <= limit - 1;
    if page > n { Scaled(n, page - 1, limit); }
  }

  /**
   * Pages 1 to ceil(total / limit), joined, are the whole list of live files, each of them once;
   * later pages are empty.
   */
  lemma PagesCoverTheFiles(rows: Rows, order: seq<FileId>, limit: nat, page: nat)
    requires IsListing(rows, order) && limit >= 1 && page >= 1
    ensures var list := Select(rows, order, All());
            var joined := Pages(list, limit, PageCount(|list|, limit));
            && joined == list && Distinct(joined) && NewestFirst(rows, joined)
            && (forall id :: id in joined <==> Live(rows, id))
            && (page > PageCount(|list|, limit) ==> FindAll(list, page, limit).0 == [])
            && FindAll(list, page, limit).1 == |set id | id in rows && !rows[id].deleted|
  {
    var all := All();
    var list := Select(rows, order, all);
    SelectedOnce(rows, order, all);
    SelectedExactly(rows, order, all);
    SelectedNewestFirst(rows, order, all);
    PagesCoverTheList(list, limit, page);
    CountOfDistinct(list, set id | id in rows && !rows[id].deleted);
  }

  lemma {:induction false} CountOfDistinct(list: seq<FileId>, ids: set<FileId>)
    requires Distinct(list) && forall id :: id in list <==> id in ids
    ensures |list| == |ids|
  {
    if list == [] {
      assert ids == {};
    } else {
      var init, last := list[..|list| - 1], list[|list| - 1];
      assert forall id :: id in list <==> id in init || id == last;
      CountOfDistinct(init, ids - {last});
    }
  }

  lemma PagesCoverTheList(list: seq<FileId>, limit: nat, page: nat)
    requires limit >= 1 && page >= 1
    ensures Pages(list, limit, PageCount(|list|, limit)) == list
    ensures page > PageCount(|list|, limit) ==> FindAll(list, page, limit).0 == []
  {
    PagesAreAPrefix(list, limit, PageCount(|list|, limit));
    PageCountCovers(|list|, limit, page);
    hide Pages, PageCount;
    assert list[..|list|] == list;
  }
}
