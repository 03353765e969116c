/** The `users` table (src/db/users.js): primary key `id`, a NOT NULL
    `access_level` text and a `created_at` stamp filled in by the database. */
module UsersDb {

  import opened Wrappers
  import opened Constants
  import FilesDb

  /** A row of the table without its key. */
  datatype UserRow = UserRow(accessLevel: string, createdAt: int)

  /** A row as `SELECT *` returns it. */
  datatype User = User(id: string, accessLevel: string, createdAt: int)

  const USER_NOT_FOUND: string := "User not found"
  /** The error SQLite raises when an INSERT repeats a primary key. */
  const DUPLICATE_USER: string := "UNIQUE constraint failed: users.id"

  /** The record `SELECT * FROM users WHERE id = ?` yields for a present key. */
  function Record(id: string, row: UserRow): User {
    User(id, row.accessLevel, row.createdAt)
  }

  /** Every row of a table, as records. */
  function Records(rows: map<string, UserRow>): (r: set<User>)
    ensures forall u :: u in r <==> u.id in rows && Record(u.id, rows[u.id]) == u
  {
    set id | id in rows :: Record(id, rows[id])
  }

  /** The records are one per row: no two rows give the same record, none is lost. */
  lemma {:induction false} RecordsCount(rows: map<string, UserRow>)
    ensures |Records(rows)| == |rows|
    decreases |rows|
  {
    if rows != map[] {
      var id :| id in rows;
      var rest := rows - {id};
      assert |rest| == |rows| - 1 by {
        assert rest.Keys == rows.Keys - {id};
      }
      RecordsCount(rest);
      var u := Record(id, rows[id]);
      assert Records(rows) == Records(rest) + {u};
      assert u !in Records(rest);
    }
  }

  /** The table. Each method is one SQL statement. */
  class UsersTable {
    var rows: map<string, UserRow>

    constructor ()
      ensures rows == map[]
    {
      rows := map[];
    }

    /** createUser: INSERT (id, access_level); the level defaults to "user" when the
        argument is left out. A repeated id is refused by the primary key. */
    method CreateUser(id: string, accessLevel: Option<string>, createdAt: int) returns (o: Outcome)
      modifies this
      ensures o == (if id in old(rows) then Fail(DUPLICATE_USER) else Pass)
      ensures o.Pass? ==> rows == old(rows)[id := UserRow(LevelOrDefault(accessLevel), createdAt)]
      ensures o.Fail? ==> rows == old(rows)
    {
      if id in rows {
        o := Fail(DUPLICATE_USER);
      } else {
        rows := rows[id := UserRow(LevelOrDefault(accessLevel), createdAt)];
        o := Pass;
      }
    }

    /** deleteUser: DELETE by id; when no row changed it throws "User not found".
        Deleting a row fires the `ON DELETE CASCADE` declared on files.uploader_id,
        which removes that user's uploads from the files table. */
    method DeleteUser(id: string, files: FilesDb.FilesTable) returns (o: Outcome)
      modifies this, files
      ensures o == (if id in old(rows) then Pass else Fail(USER_NOT_FOUND))
      ensures rows == old(rows) - {id}
      ensures files.rows == if id in old(rows) then FilesDb.Cascade(old(files.rows), id) else old(files.rows)
      ensures FilesDb.ReferencesResolve(old(files.rows), old(rows).Keys) ==> FilesDb.ReferencesResolve(files.rows, rows.Keys)
    {
      if id in rows {
        o := Pass;
        rows := rows - {id};
        files.CascadeFrom(id);
        if FilesDb.ReferencesResolve(old(files.rows), old(rows).Keys) {
          FilesDb.CascadeKeepsReferences(old(files.rows), old(rows).Keys, id);
        }
      } else {
        o := Fail(USER_NOT_FOUND);
      }
    }

    /** listUsers: every row of the table. */
    function ListUsers(): (r: set<User>)
      reads this
      ensures |r| == |rows|
      ensures forall id :: id in rows ==> Record(id, rows[id]) in r
      ensures forall u :: u in r ==> u.id in rows
    {
      RecordsCount(rows);
      Records(rows)
    }

    /** getUser: the row with that id, or nothing. */
    function GetUser(id: string): (r: Option<User>)
      reads this
      ensures r.Some? <==> id in rows
      ensures r.Some? ==> r.value.id == id && UserRow(r.value.accessLevel, r.value.createdAt) == rows[id]
    {
      if id in rows then Some(Record(id, rows[id])) else None
    }

    /** userExists: `SELECT 1` finds a row. */
    predicate UserExists(id: string)
      reads this
      ensures UserExists(id) <==> GetUser(id).Some?
    {
      id in rows
    }
  }

  /** The default parameter of createUser. */
  function LevelOrDefault(accessLevel: Option<string>): string {
    if accessLevel.Some? then accessLevel.value else USER
  }
}
