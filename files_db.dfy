/** The `files` table (src/db/files.js): primary key `id` (the channel message id),
    the content kind, the uploader (a foreign key into `users`) and a `created_at`
    stamp. Foreign keys are enforced, so an insert is checked against the users
    table and deleting a user cascades to that user's rows. */
module FilesDb {

  import opened Wrappers
  import opened Constants

  /** A row of the table without its key. */
  datatype FileRow = FileRow(kind: Kind, uploaderId: string, createdAt: int)

  /** A row as `SELECT *` returns it. */
  datatype FileRecord = FileRecord(id: string, kind: Kind, uploaderId: string, createdAt: int)

  const FILE_NOT_FOUND: string := "File not found"
  /** The errors SQLite raises for a repeated primary key and for a dangling uploader. */
  const DUPLICATE_FILE: string := "UNIQUE constraint failed: files.id"
  const FOREIGN_KEY_FAILED: string := "FOREIGN KEY constraint failed"

  function Record(id: string, row: FileRow): FileRecord {
    FileRecord(id, row.kind, row.uploaderId, row.createdAt)
  }

  /** Every file row names an existing user: what the foreign key keeps. */
  ghost predicate ReferencesResolve(files: map<string, FileRow>, userIds: set<string>) {
    forall id :: id in files ==> files[id].uploaderId in userIds
  }

  /** The rows `ON DELETE CASCADE` on uploader_id leaves when a user row is
      deleted: every row of another uploader, unchanged, and none of theirs. */
  function Cascade(files: map<string, FileRow>, uploaderId: string): (r: map<string, FileRow>)
    ensures forall id :: id in r <==> id in files && files[id].uploaderId != uploaderId
    ensures forall id :: id in r ==> r[id] == files[id]
  {
    map id | id in files && files[id].uploaderId != uploaderId :: files[id]
  }

  /** The ids of one uploader's rows. */
  function UploadIds(files: map<string, FileRow>, uploaderId: string): set<string> {
    set id | id in files && files[id].uploaderId == uploaderId
  }

  /** The cascade removes exactly the uploader's rows: what is kept and what is
      removed add up to the table. */
  lemma {:induction false} CascadeCount(files: map<string, FileRow>, uploaderId: string)
    ensures |Cascade(files, uploaderId)| + |UploadIds(files, uploaderId)| == |files|
    decreases |files|
  {
    if files != map[] {
      var id :| id in files;
      var rest := files - {id};
      assert |rest| == |files| - 1 by {
        assert rest.Keys == files.Keys - {id};
      }
      CascadeCount(rest, uploaderId);
      if files[id].uploaderId == uploaderId {
        assert Cascade(files, uploaderId) == Cascade(rest, uploaderId);
        assert UploadIds(files, uploaderId) == UploadIds(rest, uploaderId) + {id};
      } else {
        assert Cascade(files, uploaderId).Keys == Cascade(rest, uploaderId).Keys + {id};
        assert UploadIds(files, uploaderId) == UploadIds(rest, uploaderId);
      }
    }
  }

  /** After the cascade every remaining row still names a user that remains. */
  lemma CascadeKeepsReferences(files: map<string, FileRow>, userIds: set<string>, uploaderId: string)
    requires ReferencesResolve(files, userIds)
    ensures ReferencesResolve(Cascade(files, uploaderId), userIds - {uploaderId})
  {
  }

  class FilesTable {
    var rows: map<string, FileRow>

    constructor ()
      ensures rows == map[]
    {
      rows := map[];
    }

    /** Whether the INSERT of saveFile would be accepted: the primary key is checked
        first, the foreign key into `users` at the end of the statement. */
    function Admits(id: string, uploaderId: string, userIds: set<string>): (o: Outcome)
      reads this
      ensures o.Pass? <==> id !in rows && uploaderId in userIds
      ensures id in rows ==> o == Fail(DUPLICATE_FILE)
      ensures id !in rows && uploaderId !in userIds ==> o == Fail(FOREIGN_KEY_FAILED)
    {
      if id in rows then Fail(DUPLICATE_FILE)
      else if uploaderId !in userIds then Fail(FOREIGN_KEY_FAILED)
      else Pass
    }

    /** saveFile: INSERT (id, type, uploader_id); on refusal nothing changes. */
    method SaveFile(id: string, kind: Kind, uploaderId: string, createdAt: int, userIds: set<string>) returns (o: Outcome)
      modifies this
      ensures o == old(Admits(id, uploaderId, userIds))
      ensures o.Pass? ==> rows == old(rows)[id := FileRow(kind, uploaderId, createdAt)]
      ensures o.Fail? ==> rows == old(rows)
      ensures ReferencesResolve(old(rows), userIds) ==> ReferencesResolve(rows, userIds)
    {
      o := Admits(id, uploaderId, userIds);
      if o.Pass? {
        rows := rows[id := FileRow(kind, uploaderId, createdAt)];
      }
    }

    /** getFile: the row with that id, or nothing. */
    function GetFile(id: string): (r: Option<FileRecord>)
      reads this
      ensures r.Some? <==> id in rows
      ensures r.Some? ==>
        r.value.id == id && FileRow(r.value.kind, r.value.uploaderId, r.value.createdAt) == rows[id]
    {
      if id in rows then Some(Record(id, rows[id])) else None
    }

    /** deleteFile: DELETE by id, throwing "File not found" when no row changed;
        every other row stays as it was. */
    method DeleteFile(id: string) returns (o: Outcome)
      modifies this
      ensures o == (if id in old(rows) then Pass else Fail(FILE_NOT_FOUND))
      ensures rows == old(rows) - {id}
    {
      o := if id in rows then Pass else Fail(FILE_NOT_FOUND);
      rows := rows - {id};
    }

    /** What SQLite does to this table when a user row is deleted. */
    method CascadeFrom(uploaderId: string)
      modifies this
      ensures rows == Cascade(old(rows), uploaderId)
    {
      rows := Cascade(rows, uploaderId);
    }

    /** getUserUploads: exactly the rows whose uploader is the given user. */
    function GetUserUploads(uploaderId: string): (r: set<FileRecord>)
      reads this
      ensures forall f :: f in r ==> f.uploaderId == uploaderId && f.id in rows && Record(f.id, rows[f.id]) == f
      ensures forall id :: id in rows && rows[id].uploaderId == uploaderId ==> Record(id, rows[id]) in r
    {
      set id | id in rows && rows[id].uploaderId == uploaderId :: Record(id, rows[id])
    }
  }

  /** The uploads of all users partition the table: each row is listed for its own
      uploader and for nobody else. */
  lemma UploadsPartition(t: FilesTable, id: string, other: string)
    requires id in t.rows
    ensures Record(id, t.rows[id]) in t.GetUserUploads(t.rows[id].uploaderId)
    ensures other != t.rows[id].uploaderId ==> forall f :: f in t.GetUserUploads(other) ==> f.id != id
  {
  }
}
