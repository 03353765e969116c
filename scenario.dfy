/** A client of the model: the end-to-end story the service is meant to support,
    derived from the contracts of the routes alone. */
module Scenario {

  import opened Wrappers
  import opened Constants
  import opened Jwt
  import opened Handlers
  import opened FilesApi
  import UsersApi
  import FilesDb
  import UsersDb

  /** A root user registers user B; B uploads "hello" as handle H and reads it
      back; B edits it to "world" and reads that back; root registers user C,
      whose delete of H is refused; B deletes H, after which H is not found. */
  method Walkthrough(j: Signer, service: ServiceConfig)
    returns (url: string, first: HttpReply, edited: HttpReply, intruder: HandlerResult, gone: HttpReply)
    requires Sound(j)
    ensures url == FileUrl(service, "H")
    ensures first == Json(TextContent("hello"))
    ensures edited == Json(TextContent("world"))
    ensures intruder == Failed(DELETE_FORBIDDEN)
    ensures gone == Json(Failed(Handlers.FILE_NOT_FOUND))
  {
    var g;
    g, url, first, edited := UploadAndEdit(j, service);
    intruder, gone := DeleteAsOtherThenOwner(g, j);
  }

  /** The first half of the story: bootstrap root, register B, upload, read, edit, read. */
  method UploadAndEdit(j: Signer, service: ServiceConfig)
    returns (g: Gateway, url: string, first: HttpReply, edited: HttpReply)
    requires Sound(j)
    ensures fresh(g) && fresh(g.users) && fresh(g.index) && g.service == service
    ensures g.users.rows == map["root" := UsersDb.UserRow(ROOT, 0), "b" := UsersDb.UserRow(USER, 1)]
    ensures g.index.rows == map["H" := FilesDb.FileRow(Text, "b", 2)]
    ensures "H" in g.channel
    ensures url == FileUrl(service, "H")
    ensures first == Json(TextContent("hello"))
    ensures edited == Json(TextContent("world"))
  {
    var users := new UsersDb.UsersTable();
    var files := new FilesDb.FilesTable();
    g := new Gateway(files, users, service);

    // The first root user is created directly in the table.
    var bootstrapped := users.CreateUser("root", Some(ROOT), 0);
    var rootHeader := Some(BearerHeader(GenerateToken(j, "root")));

    // Root registers B.
    IssuedTokenAuthenticates(j, "root", users.rows, ROOT);
    var drawsB := ["b"];
    assert !users.UserExists(drawsB[0]);
    var regB, b := UsersApi.Register(users, rootHeader, Some(USER), drawsB, j, 1);
    assert regB.Token? && b == "b";
    var headerB := Some(BearerHeader(GenerateToken(j, "b")));

    // B uploads "hello"; the platform assigns H.
    IssuedTokenAuthenticates(j, "b", users.rows, USER);
    assert Strings.StartsWith("text/plain", TEXT_PLAIN);
    var uploaded := UploadRoute(g, UploadRequest(headerB, Some("text/plain"), Some("hello"), None), j, Succeeds, "H", "", 2);
    assert uploaded.Uploaded? && g.index.rows["H"] == FilesDb.FileRow(Text, "b", 2);
    assert g.channel["H"] == Message("hello", []);
    url := uploaded.url;
    first := GetRoute(g, "H", Succeeds);

    // B edits H.
    var editedResult := EditRoute(g, headerB, "H", Some("world"), j, Succeeds, Succeeds);
    assert editedResult == Done;
    assert g.channel["H"].content == "world";
    edited := GetRoute(g, "H", Succeeds);
  }

  /** The second half: root registers C, C's delete is refused, B's succeeds. */
  method DeleteAsOtherThenOwner(g: Gateway, j: Signer) returns (intruder: HandlerResult, gone: HttpReply)
    requires Sound(j)
    requires g.users.rows == map["root" := UsersDb.UserRow(ROOT, 0), "b" := UsersDb.UserRow(USER, 1)]
    requires g.index.rows == map["H" := FilesDb.FileRow(Text, "b", 2)]
    requires "H" in g.channel
    modifies g, g.users, g.index
    ensures intruder == Failed(DELETE_FORBIDDEN)
    ensures gone == Json(Failed(Handlers.FILE_NOT_FOUND))
  {
    var users := g.users;
    var rootHeader := Some(BearerHeader(GenerateToken(j, "root")));
    IssuedTokenAuthenticates(j, "root", users.rows, ROOT);
    var drawsC := ["c"];
    assert !users.UserExists(drawsC[0]);
    var regC, c := UsersApi.Register(users, rootHeader, Some(USER), drawsC, j, 3);
    assert regC.Token? && c == "c";

    IssuedTokenAuthenticates(j, "c", users.rows, USER);
    intruder := DeleteRoute(g, Some(BearerHeader(GenerateToken(j, "c"))), "H", j, Succeeds, Succeeds);

    IssuedTokenAuthenticates(j, "b", users.rows, USER);
    var deleted := DeleteRoute(g, Some(BearerHeader(GenerateToken(j, "b"))), "H", j, Succeeds, Succeeds);
    assert deleted == Done;
    gone := GetRoute(g, "H", Succeeds);
  }
}
