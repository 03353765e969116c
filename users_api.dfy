/** The decision logic of the user routes (src/api/users.js): authenticate, apply
    the self-or-root gate for reads about another user, the level whitelist on
    register, and turn every error into `Failure(reason)`. */
module UsersApi {

  import opened Wrappers
  import opened Constants
  import opened Jwt
  import FilesDb
  import UsersDb

  const UPLOADS_FORBIDDEN: string := "Not authorized to view these uploads"
  const USER_FORBIDDEN: string := "Not authorized to view this user"
  const INVALID_LEVEL: string := "Invalid access level. Use: 'user' or 'root'"

  /** One entry of the uploads list: id, type and creation stamp, without the uploader. */
  datatype UploadSummary = UploadSummary(id: string, kind: string, createdAt: int)

  /** The `{succ, ...}` value a user route sends. */
  datatype ApiReply =
    | Failure(reason: string)
    | Profile(user: UsersDb.User)
    | Uploads(uploads: set<UploadSummary>)
    | Token(token: string)
    | Succeeded

  /** The cross-user gate: root sees anyone, others only themselves. */
  predicate MaySee(caller: UsersDb.User, targetId: string) {
    caller.accessLevel == ROOT || caller.id == targetId
  }

  /** `Object.values(ACCESS_LEVELS).includes(accessLevel)`. */
  predicate KnownLevel(accessLevel: Option<string>) {
    accessLevel == Some(USER) || accessLevel == Some(ROOT)
  }

  function Summary(f: FilesDb.FileRecord): UploadSummary {
    UploadSummary(f.id, f.kind.Name(), f.createdAt)
  }

  /** GET /users/me: the caller's own id, level and creation stamp as stored. */
  function Me(authorization: Option<string>, users: UsersDb.UsersTable, j: Signer): (r: ApiReply)
    reads users
    ensures var auth := CheckPermissions(authorization, USER, users.rows, j);
      && (auth.Err? ==> r == Failure(auth.error))
      && (auth.Ok? ==> r.Profile?)
    ensures r.Profile? ==>
      && Caller(authorization, users.rows, j) == Some(r.user.id)
      && UsersDb.Record(r.user.id, users.rows[r.user.id]) == r.user
  {
    var auth := CheckPermissions(authorization, USER, users.rows, j);
    if auth.Err? then Failure(auth.error) else Profile(auth.value)
  }

  /** GET /users/uploads/:id: the target's uploads, for root or the target. */
  function UserUploads(authorization: Option<string>, targetId: string, users: UsersDb.UsersTable,
                       files: FilesDb.FilesTable, j: Signer): (r: ApiReply)
    reads users, files
    ensures var auth := CheckPermissions(authorization, USER, users.rows, j);
      && (auth.Err? ==> r == Failure(auth.error))
      && (auth.Ok? && !MaySee(auth.value, targetId) ==> r == Failure(UPLOADS_FORBIDDEN))
      && (r.Uploads? <==> auth.Ok? && MaySee(auth.value, targetId))
    ensures r.Uploads? ==> forall id :: id in files.rows && files.rows[id].uploaderId == targetId ==>
      Summary(FilesDb.Record(id, files.rows[id])) in r.uploads
    ensures r.Uploads? ==> forall s :: s in r.uploads ==>
      s.id in files.rows && files.rows[s.id].uploaderId == targetId && Summary(FilesDb.Record(s.id, files.rows[s.id])) == s
  {
    var auth := CheckPermissions(authorization, USER, users.rows, j);
    if auth.Err? then Failure(auth.error)
    else if !MaySee(auth.value, targetId) then Failure(UPLOADS_FORBIDDEN)
    else Uploads(set f | f in files.GetUserUploads(targetId) :: Summary(f))
  }

  /** GET /users/:id: the target's record, for root or the target. */
  function UserInfo(authorization: Option<string>, targetId: string, users: UsersDb.UsersTable, j: Signer): (r: ApiReply)
    reads users
    ensures var auth := CheckPermissions(authorization, USER, users.rows, j);
      && (auth.Err? ==> r == Failure(auth.error))
      && (auth.Ok? && !MaySee(auth.value, targetId) ==> r == Failure(USER_FORBIDDEN))
      && (auth.Ok? && MaySee(auth.value, targetId) && targetId !in users.rows ==> r == Failure(UsersDb.USER_NOT_FOUND))
      && (r.Profile? <==> auth.Ok? && MaySee(auth.value, targetId) && targetId in users.rows)
    ensures r.Profile? ==> r.user == UsersDb.Record(targetId, users.rows[targetId])
  {
    var auth := CheckPermissions(authorization, USER, users.rows, j);
    if auth.Err? then Failure(auth.error)
    else if !MaySee(auth.value, targetId) then Failure(USER_FORBIDDEN)
    else
      var target := users.GetUser(targetId);
      if target.None? then Failure(UsersDb.USER_NOT_FOUND) else Profile(target.value)
  }

  /** A caller who is neither root nor the target learns nothing about the target
      from either read: both answers are the same refusal whatever the tables hold. */
  lemma CrossUserReadsRefused(authorization: Option<string>, targetId: string, users: UsersDb.UsersTable,
                              files: FilesDb.FilesTable, j: Signer)
    requires CheckPermissions(authorization, USER, users.rows, j).Ok?
    requires var caller := CheckPermissions(authorization, USER, users.rows, j).value;
      caller.accessLevel != ROOT && caller.id != targetId
    ensures UserUploads(authorization, targetId, users, files, j) == Failure(UPLOADS_FORBIDDEN)
    ensures UserInfo(authorization, targetId, users, j) == Failure(USER_FORBIDDEN)
  {
  }

  /** POST /users/register: root only; the level must be "user" or "root"; a fresh
      id is drawn, the user is created and a token for that id is returned. With
      a sound token library the token authenticates as the new user. */
  method Register(users: UsersDb.UsersTable, authorization: Option<string>, accessLevel: Option<string>,
                  draws: seq<string>, j: Signer, createdAt: int)
    returns (r: ApiReply, ghost newId: string)
    requires exists i :: 0 <= i < |draws| && !users.UserExists(draws[i])
    modifies users
    ensures var auth := old(CheckPermissions(authorization, ROOT, users.rows, j));
      && (auth.Err? ==> r == Failure(auth.error))
      && (auth.Ok? && !KnownLevel(accessLevel) ==> r == Failure(INVALID_LEVEL))
      && (r.Token? <==> auth.Ok? && KnownLevel(accessLevel))
    ensures r.Failure? || r.Token?
    ensures r.Failure? ==> users.rows == old(users.rows)
    ensures r.Token? ==>
      && newId !in old(users.rows) && newId in draws
      && users.rows == old(users.rows)[newId := UsersDb.UserRow(accessLevel.value, createdAt)]
      && r.token == GenerateToken(j, newId)
    ensures r.Token? && Sound(j) ==>
      CheckPermissions(Some(BearerHeader(r.token)), USER, users.rows, j) == Ok(UsersDb.User(newId, accessLevel.value, createdAt))
  {
    newId := "";
    var auth := CheckPermissions(authorization, ROOT, users.rows, j);
    if auth.Err? {
      return Failure(auth.error), newId;
    }
    if !KnownLevel(accessLevel) {
      return Failure(INVALID_LEVEL), newId;
    }
    var id := GenerateUserId(users, draws);
    newId := id;
    var created := users.CreateUser(id, accessLevel, createdAt);
    assert created.Pass?;
    r := Token(GenerateToken(j, id));
    if Sound(j) {
      IssuedTokenAuthenticates(j, id, users.rows, USER);
    }
  }

  /** POST /users/delete/:id: root only; an absent target is "User not found".
      A deleted user's uploads leave the files table with them; their messages
      stay in the channel. */
  method DeleteUser(users: UsersDb.UsersTable, files: FilesDb.FilesTable, authorization: Option<string>,
                    targetId: string, j: Signer)
    returns (r: ApiReply)
    modifies users, files
    ensures var auth := old(CheckPermissions(authorization, ROOT, users.rows, j));
      && (auth.Err? ==> r == Failure(auth.error) && users.rows == old(users.rows) && files.rows == old(files.rows))
      && (auth.Ok? ==> users.rows == old(users.rows) - {targetId})
      && (auth.Ok? && targetId !in old(users.rows) ==> r == Failure(UsersDb.USER_NOT_FOUND) && files.rows == old(files.rows))
      && (r == Succeeded <==> auth.Ok? && targetId in old(users.rows))
    ensures r.Failure? || r == Succeeded
    ensures r == Succeeded ==> files.rows == FilesDb.Cascade(old(files.rows), targetId)
    ensures files.rows.Keys <= old(files.rows).Keys
    ensures FilesDb.ReferencesResolve(old(files.rows), old(users.rows).Keys) ==> FilesDb.ReferencesResolve(files.rows, users.rows.Keys)
  {
    var auth := CheckPermissions(authorization, ROOT, users.rows, j);
    if auth.Err? {
      return Failure(auth.error);
    }
    var deleted := users.DeleteUser(targetId, files);
    r := if deleted.Pass? then Succeeded else Failure(deleted.error);
  }
}
