/** The decision logic of the file routes (src/api/files.js): authenticate, pick
    the handler, map its result to an HTTP reply. Thrown errors become
    `Failed(reason)`. */
module FilesApi {

  import opened Wrappers
  import opened Constants
  import opened Strings
  import opened Validation
  import opened Jwt
  import opened Handlers
  import FilesDb
  import UsersDb

  const CONTENT_TYPE_REQUIRED: string := "Content-Type header is required"
  const TEXT_PLAIN: string := "text/plain"
  const FILE_PART: string := "file"
  const NO_FILE: string := "No file provided"
  const NOT_MULTIPART: string := "Invalid file upload. Use multipart/form-data"
  const TEXT_IS_REQUIRED: string := "Text is required"

  /** POST /files/upload as the route sees it. `parts` is absent when the body is
      not multipart, in which case `request.parts()` throws. */
  datatype UploadRequest = UploadRequest(
    authorization: Option<string>,
    contentType: Option<string>,
    body: Option<string>,
    parts: Option<seq<Part>>)

  /** Where an authenticated upload goes: the text handler with the raw body, or
      the multipart search for a file part. */
  datatype Dispatch = ToText(uploader: string, body: Option<string>) | ToMultipart(uploader: string)

  /** What the GET route sends: the handler's result as JSON, or a redirect. */
  datatype HttpReply = Json(body: HandlerResult) | RedirectTo(status: nat, location: string)

  /** `user.access_level === ACCESS_LEVELS.ROOT`, passed to edit and delete. */
  predicate IsRoot(user: UsersDb.User) {
    user.accessLevel == ROOT
  }

  /** The upload route's guards: authentication at "user" level comes first, then
      a Content-Type must be present; one containing "text/plain" goes to the text
      handler, any other to the multipart path. */
  function UploadDispatch(req: UploadRequest, users: map<string, UsersDb.UserRow>, j: Signer): (r: Result<Dispatch>)
    ensures var auth := CheckPermissions(req.authorization, USER, users, j);
      && (auth.Err? ==> r == Err(auth.error))
      && (auth.Ok? && Blank(req.contentType) ==> r == Err(CONTENT_TYPE_REQUIRED))
      && (r.Ok? <==> auth.Ok? && !Blank(req.contentType))
      && (r.Ok? ==> r.value.uploader == auth.value.id)
      && (r.Ok? ==> (r.value.ToText? <==> Contains(req.contentType.value, TEXT_PLAIN)))
      && (r.Ok? && r.value.ToText? ==> r.value.body == req.body)
  {
    var auth := CheckPermissions(req.authorization, USER, users, j);
    if auth.Err? then Err(auth.error)
    else if Blank(req.contentType) then Err(CONTENT_TYPE_REQUIRED)
    else if Contains(req.contentType.value, TEXT_PLAIN) then Ok(ToText(auth.value.id, req.body))
    else Ok(ToMultipart(auth.value.id))
  }

  /** The first part of a multipart body whose type is "file". */
  function FirstFile(parts: seq<Part>): (found: Option<Part>)
    ensures found.None? <==> forall k :: 0 <= k < |parts| ==> parts[k].partType != FILE_PART
    ensures found.Some? ==> exists i ::
      (&& 0 <= i < |parts| && parts[i] == found.value && found.value.partType == FILE_PART
       && forall k :: 0 <= k < i ==> parts[k].partType != FILE_PART)
  {
    if parts == [] then None
    else if parts[0].partType == FILE_PART then Some(parts[0])
    else
      var rest := FirstFile(parts[1..]);
      assert forall k :: 1 <= k < |parts| ==> parts[k] == parts[1..][k - 1];
      rest
  }

  /** The `for await` loop over the parts that keeps the first file part and
      breaks. */
  method FirstFilePart(parts: seq<Part>) returns (data: Option<Part>)
    ensures data == FirstFile(parts)
  {
    data := None;
    var i := 0;
    while i < |parts|
      invariant 0 <= i <= |parts|
      invariant FirstFile(parts) == FirstFile(parts[i..])
    {
      if parts[i].partType == FILE_PART {
        data := Some(parts[i]);
        break;
      }
      assert parts[i..][1..] == parts[i + 1..];
      i := i + 1;
    }
  }

  /** What an upload sends to the channel once dispatched, with the kind it is
      indexed under: nothing when the route or the handler's validation refuses
      first (no file part, not multipart, invalid payload). */
  function Outgoing(d: Dispatch, req: UploadRequest, cdnUrl: string): (out: Option<(Message, Kind)>)
    ensures out.Some? ==> (out.value.1 == Text <==> d.ToText?)
    ensures d.ToText? ==> (out.Some? <==> ValidateText(d.body).Valid?)
    ensures d.ToText? && out.Some? ==> out.value.0 == Message(d.body.value, [])
    ensures d.ToMultipart? ==>
      (out.Some? <==> req.parts.Some? && FirstFile(req.parts.value).Some? && ValidateFile(FirstFile(req.parts.value)).Valid?)
    ensures d.ToMultipart? && out.Some? ==>
      && out.value.0.content == "" && |out.value.0.attachments| == 1
      && out.value.0.attachments[0].url == cdnUrl
      && out.value.1 == ClassifyMime(FirstFile(req.parts.value).value.mimetype)
  {
    match d
    case ToText(_, body) =>
      if ValidateText(body).Valid? then Some((Message(body.value, []), Text)) else None
    case ToMultipart(_) =>
      if req.parts.None? || FirstFile(req.parts.value).None? then None
      else
        var file := FirstFile(req.parts.value).value;
        if ValidateFile(Some(file)).Valid?
        then Some((Message("", [Attachment(file.filename, cdnUrl)]), ClassifyMime(file.mimetype)))
        else None
  }

  /** POST /files/upload. Nothing reaches the channel unless the caller is
      authenticated, the payload is found and valid and the platform accepts
      the send; the index row follows only when the table admits it. */
  method UploadRoute(g: Gateway, req: UploadRequest, j: Signer, send: Call, newId: string, cdnUrl: string, createdAt: int)
    returns (r: HandlerResult)
    requires newId !in g.channel
    modifies g, g.index
    ensures var route := UploadDispatch(req, g.users.rows, j);
      && (route.Err? ==> r == Failed(route.error))
      && (route.Ok? && route.value.ToMultipart? && req.parts.None? ==> r == Failed(NOT_MULTIPART))
      && ((route.Ok? && route.value.ToMultipart? && req.parts.Some? && FirstFile(req.parts.value).None?)
            ==> r == Failed(NO_FILE))
      && ((route.Ok? && route.value.ToText? && ValidateText(route.value.body).Invalid?)
            ==> r == Failed(ValidateText(route.value.body).reason))
      && ((route.Ok? && route.value.ToMultipart? && req.parts.Some? && FirstFile(req.parts.value).Some?
           && ValidateFile(FirstFile(req.parts.value)).Invalid?)
            ==> r == Failed(ValidateFile(FirstFile(req.parts.value)).reason))
      && ((route.Ok? && Outgoing(route.value, req, cdnUrl).Some? && send.Throws?) ==> r == Failed(send.message))
      && ((route.Err? || Outgoing(route.value, req, cdnUrl).None? || send.Throws?) ==>
            r.Failed? && g.channel == old(g.channel) && g.index.rows == old(g.index.rows))
      && ((route.Ok? && Outgoing(route.value, req, cdnUrl).Some? && send.Succeeds?) ==>
            var (message, kind) := Outgoing(route.value, req, cdnUrl).value;
            && g.channel == old(g.channel)[newId := message]
            && (r.Uploaded? <==> old(g.index.Admits(newId, route.value.uploader, g.users.rows.Keys)).Pass?)
            && (!r.Uploaded? ==> r == Failed(old(g.index.Admits(newId, route.value.uploader, g.users.rows.Keys)).error))
            && (r.Uploaded? ==>
                  && r.url == FileUrl(g.service, newId)
                  && g.index.rows == old(g.index.rows)[newId := FilesDb.FileRow(kind, route.value.uploader, createdAt)]))
    ensures !r.Uploaded? ==> r.Failed? && g.index.rows == old(g.index.rows)
    ensures old(g.Consistent()) ==> g.Consistent()
  {
    var route := UploadDispatch(req, g.users.rows, j);
    if route.Err? {
      return Failed(route.error);
    }
    match route.value
    case ToText(uploader, body) =>
      r := g.HandleTextUpload(body, uploader, send, newId, createdAt);
    case ToMultipart(uploader) =>
      if req.parts.None? {
        return Failed(NOT_MULTIPART);
      }
      var data := FirstFilePart(req.parts.value);
      if data.None? {
        return Failed(NO_FILE);
      }
      r := g.HandleFileUpload(data, uploader, send, newId, cdnUrl, createdAt);
  }

  /** The GET route's reply: a failure goes out as is, a success carrying a
      non-empty redirect URL becomes a 307 to it, any other success is JSON. */
  function GetReply(result: HandlerResult): (reply: HttpReply)
    ensures reply.RedirectTo? <==> result.Redirect? && result.redirectUrl != ""
    ensures reply.RedirectTo? ==> reply.status == TEMPORARY_REDIRECT && reply.location == result.redirectUrl
    ensures reply.Json? ==> reply.body == result
  {
    if result.Redirect? && result.redirectUrl != "" then RedirectTo(TEMPORARY_REDIRECT, result.redirectUrl)
    else Json(result)
  }

  /** GET /files/:messageId, which needs no token. */
  method GetRoute(g: Gateway, id: string, fetch: Call) returns (reply: HttpReply)
    ensures id !in g.index.rows ==> reply == Json(Failed(Handlers.FILE_NOT_FOUND))
    ensures id in g.index.rows && fetch.Throws? ==> reply == Json(Failed(fetch.message))
    ensures id in g.index.rows && fetch.Succeeds? && id !in g.channel ==> reply == Json(Failed(NOT_ON_STORAGE))
    ensures id in g.index.rows && fetch.Succeeds? && id in g.channel && g.index.rows[id].kind == Text
      ==> reply == Json(TextContent(g.channel[id].content))
    ensures (id in g.index.rows && fetch.Succeeds? && id in g.channel && g.index.rows[id].kind != Text
             && |g.channel[id].attachments| == 0) ==> reply == Json(Failed(NO_ATTACHMENT))
    ensures (id in g.index.rows && fetch.Succeeds? && id in g.channel && g.index.rows[id].kind != Text
             && |g.channel[id].attachments| > 0) ==>
      reply == if g.channel[id].attachments[0].url != ""
               then RedirectTo(TEMPORARY_REDIRECT, g.channel[id].attachments[0].url)
               else Json(Redirect("", g.index.rows[id].kind.Name()))
    ensures reply.RedirectTo? ==>
      && reply.status == 307
      && id in g.index.rows && g.index.rows[id].kind != Text
      && id in g.channel && |g.channel[id].attachments| > 0
      && reply.location == g.channel[id].attachments[0].url
  {
    var result := g.HandleGetMessage(id, fetch);
    reply := GetReply(result);
  }

  /** The edit route's guards before the handler: authenticate at "user" level,
      then refuse an absent or empty `text`. */
  function EditGate(authorization: Option<string>, text: Option<string>, users: map<string, UsersDb.UserRow>, j: Signer)
    : (r: Result<UsersDb.User>)
    ensures var auth := CheckPermissions(authorization, USER, users, j);
      && (auth.Err? ==> r == Err(auth.error))
      && (auth.Ok? ==> r == if Blank(text) then Err(TEXT_IS_REQUIRED) else auth)
  {
    var auth := CheckPermissions(authorization, USER, users, j);
    if auth.Err? then auth
    else if Blank(text) then Err(TEXT_IS_REQUIRED)
    else auth
  }

  /** Past the edit route's own check the handler never reports missing text:
      the only validation failure left is the length limit. */
  lemma EditGateShadowsEmptyText(authorization: Option<string>, text: Option<string>, users: map<string, UsersDb.UserRow>, j: Signer)
    requires EditGate(authorization, text, users, j).Ok?
    ensures ValidateText(text) != Invalid(TEXT_REQUIRED)
    ensures ValidateText(text).Invalid? ==> ValidateText(text) == Invalid(TEXT_TOO_LONG)
  {
  }

  /** POST /files/edit/:id: the handler runs with the caller's id and
      `isRoot = (access_level == "root")`. */
  method EditRoute(g: Gateway, authorization: Option<string>, id: string, text: Option<string>, j: Signer, fetch: Call, edit: Call)
    returns (r: HandlerResult)
    modifies g
    ensures var gate := EditGate(authorization, text, g.users.rows, j);
      && (gate.Err? ==> r == Failed(gate.error) && g.channel == old(g.channel))
      && (gate.Ok? ==>
            var refusal := EditRefusal(RowOf(g.index.rows, id), text, gate.value.id, IsRoot(gate.value));
            && (refusal.Some? ==> r == Failed(refusal.value))
            && (refusal.None? && fetch.Throws? ==> r == Failed(fetch.message))
            && (refusal.None? && fetch.Succeeds? && id !in old(g.channel) ==> r == Failed(NOT_ON_STORAGE))
            && (refusal.None? && fetch.Succeeds? && id in old(g.channel) && edit.Throws? ==> r == Failed(edit.message))
            && (r == Done <==> refusal.None? && fetch.Succeeds? && id in old(g.channel) && edit.Succeeds?))
    ensures r == Done ==> g.channel == old(g.channel)[id := old(g.channel)[id].(content := text.value)]
    ensures r != Done ==> r.Failed? && g.channel == old(g.channel)
    ensures old(g.Consistent()) ==> g.Consistent()
  {
    var gate := EditGate(authorization, text, g.users.rows, j);
    if gate.Err? {
      return Failed(gate.error);
    }
    var user := gate.value;
    r := g.HandleEditMessage(id, text, user.id, IsRoot(user), fetch, edit);
  }

  /** POST /files/delete/:id. */
  method DeleteRoute(g: Gateway, authorization: Option<string>, id: string, j: Signer, fetch: Call, remove: Call)
    returns (r: HandlerResult)
    modifies g, g.index
    ensures var auth := CheckPermissions(authorization, USER, g.users.rows, j);
      && (auth.Err? ==> r == Failed(auth.error) && g.channel == old(g.channel))
      && (auth.Ok? ==>
            var refusal := DeleteRefusal(RowOf(old(g.index.rows), id), auth.value.id, IsRoot(auth.value));
            && (refusal.Some? ==> r == Failed(refusal.value))
            && (refusal.None? && fetch.Throws? ==> r == Failed(fetch.message))
            && (refusal.None? && fetch.Succeeds? && id !in old(g.channel) ==> r == Failed(NOT_ON_STORAGE))
            && (refusal.None? && fetch.Succeeds? && id in old(g.channel) && remove.Throws? ==> r == Failed(remove.message))
            && (r == Done <==> refusal.None? && fetch.Succeeds? && id in old(g.channel) && remove.Succeeds?))
    ensures r == Done ==> g.channel == old(g.channel) - {id} && g.index.rows == old(g.index.rows) - {id}
    ensures r != Done ==> r.Failed? && g.channel == old(g.channel) && g.index.rows == old(g.index.rows)
    ensures old(g.Consistent()) ==> g.Consistent()
  {
    var auth := CheckPermissions(authorization, USER, g.users.rows, j);
    if auth.Err? {
      return Failed(auth.error);
    }
    var user := auth.value;
    r := g.HandleDeleteMessage(id, user.id, IsRoot(user), fetch, remove);
  }
}
