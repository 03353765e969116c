# Discord-backed file hosting: access control and storage indirection, in Dafny

This project models the core of a small REST service that stores text and files
as messages in a Discord channel and keeps a SQLite index of them. The index has
two tables. `files` maps each message id to its kind, its uploader and a creation
stamp. `users` maps each user id to an access level and a creation stamp. The
model covers these parts:

- **Validation policy** (`validation.dfy`). Text must be present, non-empty and at
  most 2000 characters. A file must be present and at most 26214400 bytes.
- **Metadata tables** (`users_db.dfy`, `files_db.dfy`). Each table is a class over
  a map, with its primary key. The files table checks its foreign key into
  `users` on insert. Deleting a user cascades to that user's file rows.
- **Tokens and the role gate** (`jwt.dfy`). This covers the `Bearer ` header, the
  fixed error order (missing, then invalid, then insufficient), the user and root
  gates, and the draw loop that produces a fresh user id.
- **Content gateway** (`message.dfy`). A `Gateway` class holds the channel (a map
  from message id to message), the files table and the users table. It has the
  five handlers: text upload, file upload, get, edit and delete. A ghost effect
  log records the order in which the two stores change.
- **Route decisions** (`files_api.dfy`, `users_api.dfy`). These model the
  authentication and ownership gates, the Content-Type dispatch, the search for
  the first file part, the 307 mapping, the level whitelist on register, and user
  deletion.
- **Constants** (`constants.dfy`) and the string operations the code relies on
  (`strings.dfy`: `startsWith`, `includes`).
- `scenario.dfy` is a client of the contracts. Root registers B. B uploads
  "hello", reads it, edits it to "world" and reads it again. Root registers C.
  C's delete is refused, B's delete succeeds, and the file is then not found.

The collaborators are parameters:

- **Discord platform.** The platform assigns the message id and the attachment
  URL. Each platform call either succeeds or throws (`Call`).
- **Token library.** `Signer` holds `sign` and `verify`. The library's one
  guarantee, that verifying a signed token gives back its subject, is the
  hypothesis `Sound(j)`.
- **Random ids.** The uuid stream is a sequence of draws.
- **Clock.** Each insert takes its `created_at` value as an argument.
- **Service configuration.** The protocol and domain come in a `ServiceConfig`
  value.

The schema declares `ON DELETE CASCADE` on `files.uploader_id`
(src/db/files.js:10). `UsersDb.UsersTable.DeleteUser` therefore removes the
user's row and, with it, every files row that names the user. The user's messages
stay in the channel. The users connection (src/db/users.js:4) does not set the
foreign-key pragma itself. The model takes foreign keys as enforced on it, which
is the default of the SQLite build the driver ships.

## Model

| member | source | states |
|---|---|---|
| `Constants.Kind.Name` | src/constants.js:1-5 | the three message kinds are stored as "text", "image", "file"; each name reads back as its own kind, so the names are distinct |
| `Constants.KindNamedOnlyNames` | src/constants.js:1-5 | only those three names read back as a kind, and each as the kind it names |
| `Constants.ConstantFacts` | src/constants.js:7-26 | both size limits are 25·1024·1024 = 26214400; the access levels and the three token errors are pairwise distinct |
| `Strings.ContainsIffOccurs` | src/api/files.js:19 | `includes` holds exactly when the pattern occurs at some position of the string |
| `Strings.ContainsInfix` | src/api/files.js:19 | a pattern is found inside any surrounding text |
| `Validation.ValidateText` | src/utils/validation.js:3-16 | valid iff present, non-empty and at most 2000 characters (inclusive); blank gives "Text content is required", which takes precedence over the length message |
| `Validation.ValidateFile` | src/utils/validation.js:18-31 | valid iff present and at most 26214400 bytes; absent gives "File is required", oversize the size message |
| `UsersDb.Records` | src/db/users.js:28-31 | a record is listed iff it is the record of some row |
| `UsersDb.RecordsCount` | src/db/users.js:28-31 | listing yields exactly one record per row |
| `UsersDb.UsersTable.constructor` | src/db/users.js:6-12 | the table starts empty |
| `UsersDb.UsersTable.CreateUser` | src/db/users.js:14-17 | adds (id, level, created_at) with the level defaulting to "user"; a repeated id is refused and changes nothing |
| `UsersDb.UsersTable.DeleteUser` | src/db/users.js:19-26 | removes only that user row; an absent id fails with "User not found" and changes nothing; a deleted user's file rows go with it (the cascade), and every remaining file row still names an existing user |
| `UsersDb.UsersTable.ListUsers` | src/db/users.js:28-31 | every row appears, nothing else, as many records as rows |
| `UsersDb.UsersTable.GetUser` | src/db/users.js:33-36 | the record for the id iff the id is a key, read without mutation |
| `UsersDb.UsersTable.UserExists` | src/db/users.js:43-46 | holds iff GetUser would return a record |
| `FilesDb.Cascade` | src/db/files.js:10 | after a user row is deleted, the files rows left are exactly those of other uploaders, unchanged |
| `FilesDb.CascadeCount` | src/db/files.js:10 | the rows kept and the user's uploads removed add up to the whole table |
| `FilesDb.CascadeKeepsReferences` | src/db/files.js:10 | if every row named an existing user before, every row left names a user that remains |
| `FilesDb.FilesTable.CascadeFrom` | src/db/files.js:10 | the table becomes Cascade of its old rows |
| `FilesDb.FilesTable.constructor` | src/db/files.js:6-13 | the table starts empty |
| `FilesDb.FilesTable.Admits` | src/db/files.js:6-20 | an insert is accepted iff the id is new and the uploader exists; the primary key is reported before the foreign key |
| `FilesDb.FilesTable.SaveFile` | src/db/files.js:15-20 | adds (id, kind, uploader) exactly when admitted, otherwise changes nothing; keeps every uploader reference resolvable |
| `FilesDb.FilesTable.GetFile` | src/db/files.js:22-25 | the record for the id iff the id is a key, read without mutation |
| `FilesDb.FilesTable.DeleteFile` | src/db/files.js:27-34 | removes only that row; an absent id fails with "File not found" |
| `FilesDb.FilesTable.GetUserUploads` | src/db/files.js:36-39 | exactly the records whose uploader is the argument |
| `FilesDb.UploadsPartition` | src/db/files.js:36-39 | every row is listed under its own uploader and under nobody else |
| `Jwt.VerifyIssued` | src/utils/jwt.js:8-18 | with a sound library, verifying an issued token yields its subject; a rejection is a value, never an exception |
| `Jwt.TokenOf` | src/utils/jwt.js:35 | the token is the header with its 7-character "Bearer " prefix removed |
| `Jwt.HeaderRoundTrip` | src/utils/jwt.js:31-35 | "Bearer " + token passes the scheme check and yields the token back |
| `Jwt.Caller` | src/utils/jwt.js:30-44 | a caller is identified only by a Bearer token that verifies to the id of an existing user |
| `Jwt.CheckPermissions` | src/utils/jwt.js:29-54 | "Missing token" iff no Bearer header; "Invalid token" iff Bearer but unverifiable or unknown subject; "Insufficient permissions" iff known, root required and stored level not root; on success the row as stored now |
| `Jwt.UserLevelAdmitsEveryCaller` | src/utils/jwt.js:46-51 | the "user" gate passes exactly the authenticated callers, of either level |
| `Jwt.IssuedTokenAuthenticates` | src/utils/jwt.js:8-54 | a token issued for an existing user authenticates as that user's current row, and passes the root gate iff the stored level is root |
| `Jwt.DeletedUserTokenRefused` | src/utils/jwt.js:41-44 | a token for a user no longer in the table is "Invalid token" at every level |
| `Jwt.DemotionTakesEffect` | src/utils/jwt.js:41-53 | lowering a root caller's stored level makes the same header fail the root gate: the role comes from the table, not the token |
| `Jwt.GenerateUserId` | src/utils/jwt.js:20-27 | returns a draw for which userExists is false, and it is the first such draw |
| `Handlers.HandleOfUrl` | src/handlers/message.js:16-19 | a handle read from a URL rebuilds that same URL |
| `Handlers.UrlRoundTrip` | src/handlers/message.js:16-19 | the URL `protocol://domain/files/<id>` gives its id back, so distinct handles get distinct URLs |
| `Handlers.ClassifyMime` | src/handlers/message.js:41-43 | kind is image iff the MIME type starts with "image/", otherwise file; never text |
| `Handlers.EditRefusal` | src/handlers/message.js:91-107 | edit's guards in order: indexed, owner or root, kind is text, text valid; the first failing one gives the reason |
| `Handlers.DeleteRefusal` | src/handlers/message.js:123-130 | delete's guards in order: indexed, then owner or root |
| `Handlers.OwnershipRule` | src/handlers/message.js:96-130 | the uploader and root pass the ownership guard of edit and delete; anyone else is refused by it |
| `Handlers.Gateway.HandleTextUpload` | src/handlers/message.js:6-23 | invalid text is refused and nothing is sent or indexed; after a successful send the id the platform assigned is indexed as text by the caller and the URL returned; a failed index write leaves the message stored but unindexed; the effects come in the order stored, then indexed; index ⊆ channel is kept |
| `Handlers.Gateway.HandleFileUpload` | src/handlers/message.js:25-54 | as text upload, with the file as the message's single attachment, validated before any send and indexed under its MIME-derived kind |
| `Handlers.Gateway.HandleGetMessage` | src/handlers/message.js:56-81 | not indexed gives "File not found" whatever the channel holds; indexed but absent from the channel gives "File not found on storage"; text comes inline, other kinds as the first attachment's URL plus the kind; no state changes |
| `Handlers.Gateway.HandleEditMessage` | src/handlers/message.js:83-119 | refusals in EditRefusal's order, then the storage check; on success only the message content changes and the index row never does |
| `Handlers.Gateway.HandleDeleteMessage` | src/handlers/message.js:121-143 | a refused or failed delete changes nothing; on success the message is removed, then the row, in that order; index ⊆ channel is kept |
| `FilesApi.UploadDispatch` | src/api/files.js:12-21 | authentication comes first; a missing Content-Type is refused; "text/plain" anywhere in it selects the text handler with the body, anything else the multipart path |
| `FilesApi.FirstFile` | src/api/files.js:28-33 | the first part whose type is "file", or nothing iff there is none |
| `FilesApi.FirstFilePart` | src/api/files.js:26-33 | the loop that stops at the first file part returns FirstFile |
| `FilesApi.Outgoing` | src/api/files.js:19-40 | something is sent iff the payload is found and passes its validation; text goes out verbatim as a text message, a file as a message with empty content and one attachment at the CDN URL; the kind is text iff the text handler was chosen |
| `FilesApi.UploadRoute` | src/api/files.js:12-48 | the route's refusals ("Content-Type header is required", "Invalid file upload…", "No file provided", the token errors) and the handler's (the validation reason, the send error, the table's insert error) are forwarded unchanged; refusals before the send change nothing; otherwise the sent message and the new row are as the handler promises |
| `FilesApi.GetReply` | src/api/files.js:50-64 | a redirect result with a non-empty URL becomes a 307 to it; failures and other successes go out as JSON unchanged |
| `FilesApi.GetRoute` | src/api/files.js:50-64 | no token is needed; an unindexed id is "File not found"; a fetch error and a missing message ("File not found on storage") go out as JSON; text comes inline; an indexed non-text message with a non-empty first attachment URL is a 307 to that URL, and a redirect happens only then |
| `FilesApi.EditGate` | src/api/files.js:66-77 | authenticate at the user level, then refuse blank text with "Text is required" |
| `FilesApi.EditGateShadowsEmptyText` | src/api/files.js:72-77 | past the route's check, the handler's only possible validation failure is the length limit |
| `FilesApi.EditRoute` | src/api/files.js:66-90 | runs the edit handler with the caller's id and isRoot = (stored level is "root") and forwards each of its replies: the guard refusals, the fetch error, "File not found on storage", the edit error; only a successful edit changes the channel |
| `FilesApi.DeleteRoute` | src/api/files.js:92-107 | runs the delete handler with the caller's id and isRoot and forwards each of its replies: the guard refusals, the fetch error, "File not found on storage", the remove error; a refused or failed delete changes nothing |
| `UsersApi.Me` | src/api/users.js:11-25 | the caller's own stored id, level and created_at, or the token error |
| `UsersApi.UserUploads` | src/api/users.js:27-51 | root or the target sees exactly the target's uploads (id, type, created_at); anyone else gets "Not authorized to view these uploads" |
| `UsersApi.UserInfo` | src/api/users.js:53-81 | root or the target sees the target's record; a missing target is "User not found"; anyone else is refused |
| `UsersApi.CrossUserReadsRefused` | src/api/users.js:32-63 | a non-root caller asking about another user gets the same refusal from both reads, whatever the tables hold |
| `UsersApi.Register` | src/api/users.js:83-104 | root only; a level other than "user" or "root" is refused; on success exactly one new row with a fresh drawn id, and the returned token authenticates as that user |
| `UsersApi.DeleteUser` | src/api/users.js:106-116 | root only; removes the target's row and, by the cascade, exactly the target's file rows; an absent target is "User not found" and changes nothing; no file row is ever added, so the index stays within the channel |
| `Scenario.Walkthrough` | src/handlers/message.js:6-143 | the register → upload → get → edit → get → foreign delete refused → owner delete → not found story holds of the route contracts |

## Left out

- Signing and verifying tokens (jsonwebtoken with the secret): the `Signer` parameter stands for them, and `Sound` is assumed only where a lemma says so. A verified payload without a `userId` behaves like a rejected token, so `verify` yields no subject for it.
- The Discord client: message ids, attachment URLs and call failures are parameters. A fetch of an unknown id may return nothing (modelled as absent from the channel) or reject (modelled as `Throws`). `newId !in channel` is the platform's guarantee that ids are unique.
- `file.toBuffer()` and the byte content: a file is its name, MIME type and a size standing for the stream length.
- Text length: JavaScript counts UTF-16 code units and the model counts characters. They differ only for characters outside the Basic Multilingual Plane.
- Jwt.GenerateUserId: the unbounded do-while over random uuids is a loop over a finite sequence of draws, one of which is required to be fresh. The model does not cover a stream that never yields a fresh id.
- `created_at`: an opaque integer given to each insert, standing for SQLite's `strftime` default.
- The `type` column holds only the three kind names, because saveFile is only ever called with them, so it is modelled as the datatype `Kind`.
- SQLite failures other than the primary and foreign keys (I/O errors, NOT NULL violations from a `null` level): table reads never fail in the model.
- deactivateUser updates a column the schema does not declare.
- src/server.js, src/repl.js, src/swagger.js and src/config.js: startup, console and documentation wiring. The multipart plugin's 10 MB cap is not merged into the 25 MiB validation limit.
- Request shapes: a POST with no body at all, whose destructuring would throw a TypeError, is not modelled. Any error thrown while iterating multipart parts is modelled as a non-multipart body.
- Result order: listUsers and getUserUploads return sets, not SQLite's row order.
- Concurrency: requests run one at a time. In this sequential model the index stays a subset of the channel, so divergence comes only from messages removed outside the service. The get, edit and delete handlers report it whenever it holds in the state they start from. No operation removes messages from outside.
- UsersDb.UsersTable.DeleteUser: the cascade rests on foreign keys being enforced on the users connection, which never sets the pragma itself. better-sqlite3 builds SQLite with foreign keys on by default. A build with them off would leave the user's file rows dangling.
- UsersApi.DeleteUser: the same assumption about the driver's default, since it deletes through UsersDb.UsersTable.DeleteUser.
- Handlers.Gateway.HandleDeleteMessage: the index delete cannot fail in a sequential run, because the row was just read. Its failure path after the message is removed, which the source would report, is therefore not reachable in the model.
