/** The content gateway (src/handlers/message.js): five handlers that validate,
    talk to the chat channel used as object store, and keep the files table in
    step with it. Every failure comes back as a `Failed(reason)` value. */
module Handlers {

  import opened Wrappers
  import opened Constants
  import opened Strings
  import opened Validation
  import FilesDb
  import UsersDb

  /** A channel message: its text and its attachments (`attachments.first()` is
      the first element). */
  datatype Attachment = Attachment(name: string, url: string)
  datatype Message = Message(content: string, attachments: seq<Attachment>)

  /** How the chat platform answers one call beyond what the channel's contents
      decide: the call goes through, or it rejects with an error message. */
  datatype Call = Succeeds | Throws(message: string)

  /** The protocol and domain the service is reached under (config.service). */
  datatype ServiceConfig = ServiceConfig(protocol: string, domain: string)

  /** The `{succ, ...}` value a handler returns. */
  datatype HandlerResult =
    | Failed(reason: string)
    | Uploaded(url: string)
    | TextContent(content: string)
    | Redirect(redirectUrl: string, kind: string)
    | Done

  /** The effects on the two stores, in the order the handlers cause them. */
  datatype Effect = Stored(id: string) | Indexed(id: string) | Rewritten(id: string)
                  | Removed(id: string) | Unindexed(id: string)

  const FILE_NOT_FOUND: string := "File not found"
  const NOT_ON_STORAGE: string := "File not found on storage"
  const EDIT_FORBIDDEN: string := "Not authorized to edit this file"
  const DELETE_FORBIDDEN: string := "Not authorized to delete this file"
  const TEXT_ONLY: string := "Can only edit text files"
  /** The TypeError `attachments.first().url` raises on a message without attachments. */
  const NO_ATTACHMENT: string := "Cannot read properties of undefined (reading 'url')"
  const IMAGE_PREFIX: string := "image/"

  function UrlBase(service: ServiceConfig): string {
    service.protocol + "://" + service.domain + "/files/"
  }

  /** The retrieval URL `protocol://domain/files/<id>` returned by both uploads. */
  function FileUrl(service: ServiceConfig, id: string): string {
    UrlBase(service) + id
  }

  /** The handle a retrieval URL of this service names, if it is one. */
  function HandleOfUrl(service: ServiceConfig, url: string): (id: Option<string>)
    ensures id.Some? ==> FileUrl(service, id.value) == url
  {
    var base := UrlBase(service);
    if StartsWith(url, base) then
      assert base + url[|base|..] == url;
      Some(url[|base|..])
    else None
  }

  /** The handle can be read back from its URL, so no two handles share a URL. */
  lemma UrlRoundTrip(service: ServiceConfig, id: string, other: string)
    ensures HandleOfUrl(service, FileUrl(service, id)) == Some(id)
    ensures FileUrl(service, id) == FileUrl(service, other) ==> id == other
  {
    var base := UrlBase(service);
    assert FileUrl(service, id)[..|base|] == base;
    assert FileUrl(service, id)[|base|..] == id;
    assert FileUrl(service, other)[|base|..] == other;
  }

  /** The kind of an uploaded file: "image" exactly when the declared MIME type
      starts with "image/", otherwise "file"; never "text". */
  function ClassifyMime(mimetype: string): (k: Kind)
    ensures k == Image <==> StartsWith(mimetype, IMAGE_PREFIX)
    ensures k != Text
  {
    if StartsWith(mimetype, IMAGE_PREFIX) then Image else File
  }

  /** The ownership rule of edit and delete: the uploader, or a root caller. */
  predicate OwnerOrRoot(row: FilesDb.FileRow, userId: string, isRoot: bool) {
    row.uploaderId == userId || isRoot
  }

  /** The guards edit applies to its index row and the new text, in order:
      the row exists, the caller is owner or root, the content is text, the text
      is valid. The reason of the first one that fails, or nothing. */
  function EditRefusal(row: Option<FilesDb.FileRow>, text: Option<string>, userId: string, isRoot: bool): (reason: Option<string>)
    ensures reason.None? <==>
      row.Some? && OwnerOrRoot(row.value, userId, isRoot) && row.value.kind == Text && ValidateText(text).Valid?
    ensures row.None? ==> reason == Some(FILE_NOT_FOUND)
    ensures row.Some? && !OwnerOrRoot(row.value, userId, isRoot) ==> reason == Some(EDIT_FORBIDDEN)
    ensures row.Some? && OwnerOrRoot(row.value, userId, isRoot) && row.value.kind != Text ==> reason == Some(TEXT_ONLY)
    ensures row.Some? && OwnerOrRoot(row.value, userId, isRoot) && row.value.kind == Text && ValidateText(text).Invalid?
      ==> reason == Some(ValidateText(text).reason)
  {
    if row.None? then Some(FILE_NOT_FOUND)
    else if !OwnerOrRoot(row.value, userId, isRoot) then Some(EDIT_FORBIDDEN)
    else if row.value.kind != Text then Some(TEXT_ONLY)
    else if ValidateText(text).Invalid? then Some(ValidateText(text).reason)
    else None
  }

  /** The guards delete applies to its index row: it exists and the caller is
      owner or root. */
  function DeleteRefusal(row: Option<FilesDb.FileRow>, userId: string, isRoot: bool): (reason: Option<string>)
    ensures reason.None? <==> row.Some? && OwnerOrRoot(row.value, userId, isRoot)
    ensures row.None? ==> reason == Some(FILE_NOT_FOUND)
    ensures row.Some? && !OwnerOrRoot(row.value, userId, isRoot) ==> reason == Some(DELETE_FORBIDDEN)
  {
    if row.None? then Some(FILE_NOT_FOUND)
    else if !OwnerOrRoot(row.value, userId, isRoot) then Some(DELETE_FORBIDDEN)
    else None
  }

  /** The ownership rule of edit and delete: the uploader and root pass the
      ownership guard of both edit and delete, any other caller is refused by it,
      and root passes whoever owns the row. */
  lemma OwnershipRule(row: FilesDb.FileRow, text: Option<string>, userId: string, isRoot: bool)
    ensures DeleteRefusal(Some(row), userId, isRoot) == (if row.uploaderId == userId || isRoot then None else Some(DELETE_FORBIDDEN))
    ensures row.uploaderId != userId && !isRoot ==> EditRefusal(Some(row), text, userId, isRoot) == Some(EDIT_FORBIDDEN)
    ensures (row.uploaderId == userId || isRoot) && row.kind == Text ==>
      EditRefusal(Some(row), text, userId, isRoot) == (if ValidateText(text).Valid? then None else Some(ValidateText(text).reason))
  {
  }

  function RowOf(rows: map<string, FilesDb.FileRow>, id: string): Option<FilesDb.FileRow> {
    if id in rows then Some(rows[id]) else None
  }

  /** The handlers over one channel, the files table and the users table it
      references. `effects` records, in order, each change made to either store. */
  class Gateway {
    var channel: map<string, Message>
    const index: FilesDb.FilesTable
    const users: UsersDb.UsersTable
    const service: ServiceConfig
    ghost var effects: seq<Effect>

    /** Every indexed handle names a message in the channel. */
    ghost predicate Consistent()
      reads this, index
    {
      index.rows.Keys <= channel.Keys
    }

    constructor (index: FilesDb.FilesTable, users: UsersDb.UsersTable, service: ServiceConfig)
      ensures this.index == index && this.users == users && this.service == service
      ensures channel == map[] && effects == []
    {
      this.index := index;
      this.users := users;
      this.service := service;
      channel := map[];
      effects := [];
    }

    /** handleTextUpload: validate, send the text (the platform assigns `newId`),
        then index it as "text" owned by the caller. Nothing is sent for invalid
        text. When the index write fails after the send, the message stays in
        the channel unindexed (an orphan) and the failure is reported. */
    method HandleTextUpload(text: Option<string>, uploaderId: string, send: Call, newId: string, createdAt: int)
      returns (r: HandlerResult)
      requires newId !in channel
      modifies this, index
      ensures var v := ValidateText(text);
        && (v.Invalid? ==> r == Failed(v.reason))
        && (v.Valid? && send.Throws? ==> r == Failed(send.message))
        && (v.Invalid? || send.Throws? ==> channel == old(channel) && effects == old(effects))
        && (v.Valid? && send.Succeeds? ==> channel == old(channel)[newId := Message(text.value, [])])
        && (r.Uploaded? <==> v.Valid? && send.Succeeds? && old(index.Admits(newId, uploaderId, users.rows.Keys)).Pass?)
        && (v.Valid? && send.Succeeds? && !r.Uploaded? ==>
              r == Failed(old(index.Admits(newId, uploaderId, users.rows.Keys)).error) && effects == old(effects) + [Stored(newId)])
      ensures r.Uploaded? ==>
        && r.url == FileUrl(service, newId)
        && index.rows == old(index.rows)[newId := FilesDb.FileRow(Text, uploaderId, createdAt)]
        && effects == old(effects) + [Stored(newId), Indexed(newId)]
      ensures r.Failed? || r.Uploaded?
      ensures !r.Uploaded? ==> index.rows == old(index.rows)
      ensures old(Consistent()) ==> Consistent()
    {
      var v := ValidateText(text);
      if v.Invalid? {
        return Failed(v.reason);
      }
      if send.Throws? {
        return Failed(send.message);
      }
      channel := channel[newId := Message(text.value, [])];
      effects := effects + [Stored(newId)];
      var saved := index.SaveFile(newId, Text, uploaderId, createdAt, users.rows.Keys);
      if saved.Fail? {
        return Failed(saved.error);
      }
      effects := effects + [Indexed(newId)];
      r := Uploaded(FileUrl(service, newId));
    }

    /** handleFileUpload: validate, send the file as the single attachment of a
        new message (the platform assigns `newId` and the attachment's `cdnUrl`),
        classify it by MIME type, then index it. Same orphan case as text. */
    method HandleFileUpload(file: Option<Part>, uploaderId: string, send: Call, newId: string, cdnUrl: string, createdAt: int)
      returns (r: HandlerResult)
      requires newId !in channel
      modifies this, index
      ensures var v := ValidateFile(file);
        && (v.Invalid? ==> r == Failed(v.reason))
        && (v.Valid? && send.Throws? ==> r == Failed(send.message))
        && (v.Invalid? || send.Throws? ==> channel == old(channel) && effects == old(effects))
        && (v.Valid? && send.Succeeds? ==>
              channel == old(channel)[newId := Message("", [Attachment(file.value.filename, cdnUrl)])])
        && (r.Uploaded? <==> v.Valid? && send.Succeeds? && old(index.Admits(newId, uploaderId, users.rows.Keys)).Pass?)
        && (v.Valid? && send.Succeeds? && !r.Uploaded? ==>
              r == Failed(old(index.Admits(newId, uploaderId, users.rows.Keys)).error) && effects == old(effects) + [Stored(newId)])
      ensures r.Uploaded? ==>
        && r.url == FileUrl(service, newId)
        && index.rows == old(index.rows)[newId := FilesDb.FileRow(ClassifyMime(file.value.mimetype), uploaderId, createdAt)]
        && effects == old(effects) + [Stored(newId), Indexed(newId)]
      ensures r.Failed? || r.Uploaded?
      ensures !r.Uploaded? ==> index.rows == old(index.rows)
      ensures old(Consistent()) ==> Consistent()
    {
      var v := ValidateFile(file);
      if v.Invalid? {
        return Failed(v.reason);
      }
      if send.Throws? {
        return Failed(send.message);
      }
      channel := channel[newId := Message("", [Attachment(file.value.filename, cdnUrl)])];
      effects := effects + [Stored(newId)];
      var kind := ClassifyMime(file.value.mimetype);
      var saved := index.SaveFile(newId, kind, uploaderId, createdAt, users.rows.Keys);
      if saved.Fail? {
        return Failed(saved.error);
      }
      effects := effects + [Indexed(newId)];
      r := Uploaded(FileUrl(service, newId));
    }

    /** handleGetMessage: a handle missing from the index is "File not found"
        whatever the channel holds; an indexed handle missing from the channel is
        "File not found on storage". Text comes back inline; an image or file as
        the URL of the message's first attachment with its kind. Reads only. */
    method HandleGetMessage(id: string, fetch: Call) returns (r: HandlerResult)
      ensures id !in index.rows ==> r == Failed(FILE_NOT_FOUND)
      ensures id in index.rows && fetch.Throws? ==> r == Failed(fetch.message)
      ensures id in index.rows && fetch.Succeeds? && id !in channel ==> r == Failed(NOT_ON_STORAGE)
      ensures r.TextContent? <==> id in index.rows && fetch.Succeeds? && id in channel && index.rows[id].kind == Text
      ensures r.TextContent? ==> r.content == channel[id].content
      ensures r.Redirect? <==>
        id in index.rows && fetch.Succeeds? && id in channel && index.rows[id].kind != Text
        && |channel[id].attachments| > 0
      ensures (id in index.rows && fetch.Succeeds? && id in channel && index.rows[id].kind != Text
               && |channel[id].attachments| == 0) ==> r == Failed(NO_ATTACHMENT)
      ensures r.Redirect? ==>
        r.redirectUrl == channel[id].attachments[0].url && r.kind == index.rows[id].kind.Name()
      ensures r.Failed? || r.TextContent? || r.Redirect?
    {
      var row := index.GetFile(id);
      if row.None? {
        return Failed(FILE_NOT_FOUND);
      }
      if fetch.Throws? {
        return Failed(fetch.message);
      }
      if id !in channel {
        return Failed(NOT_ON_STORAGE);
      }
      var message := channel[id];
      if row.value.kind == Text {
        r := TextContent(message.content);
      } else if |message.attachments| == 0 {
        r := Failed(NO_ATTACHMENT);
      } else {
        r := Redirect(message.attachments[0].url, row.value.kind.Name());
      }
    }

    /** handleEditMessage: the guards of EditRefusal, then the message must be in
        the channel, then its content is replaced. The index row never changes. */
    method HandleEditMessage(id: string, text: Option<string>, userId: string, isRoot: bool, fetch: Call, edit: Call)
      returns (r: HandlerResult)
      modifies this
      ensures var refusal := EditRefusal(RowOf(index.rows, id), text, userId, isRoot);
        && (refusal.Some? ==> r == Failed(refusal.value))
        && (refusal.None? && fetch.Throws? ==> r == Failed(fetch.message))
        && (refusal.None? && fetch.Succeeds? && id !in old(channel) ==> r == Failed(NOT_ON_STORAGE))
        && (refusal.None? && fetch.Succeeds? && id in old(channel) && edit.Throws? ==> r == Failed(edit.message))
        && (r == Done <==> refusal.None? && fetch.Succeeds? && id in old(channel) && edit.Succeeds?)
      ensures r == Done ==>
        channel == old(channel)[id := old(channel)[id].(content := text.value)] && effects == old(effects) + [Rewritten(id)]
      ensures r != Done ==> r.Failed? && channel == old(channel) && effects == old(effects)
      ensures old(Consistent()) ==> Consistent()
    {
      var refusal := EditRefusal(RowOf(index.rows, id), text, userId, isRoot);
      if refusal.Some? {
        return Failed(refusal.value);
      }
      if fetch.Throws? {
        return Failed(fetch.message);
      }
      if id !in channel {
        return Failed(NOT_ON_STORAGE);
      }
      if edit.Throws? {
        return Failed(edit.message);
      }
      channel := channel[id := channel[id].(content := text.value)];
      effects := effects + [Rewritten(id)];
      r := Done;
    }

    /** handleDeleteMessage: the guards of DeleteRefusal, then the message must be
        in the channel; it is removed from the channel first and only then is the
        index row deleted. A refused or failed delete changes nothing. */
    method HandleDeleteMessage(id: string, userId: string, isRoot: bool, fetch: Call, remove: Call)
      returns (r: HandlerResult)
      modifies this, index
      ensures var refusal := DeleteRefusal(RowOf(old(index.rows), id), userId, isRoot);
        && (refusal.Some? ==> r == Failed(refusal.value))
        && (refusal.None? && fetch.Throws? ==> r == Failed(fetch.message))
        && (refusal.None? && fetch.Succeeds? && id !in old(channel) ==> r == Failed(NOT_ON_STORAGE))
        && (refusal.None? && fetch.Succeeds? && id in old(channel) && remove.Throws? ==> r == Failed(remove.message))
        && (r == Done <==> refusal.None? && fetch.Succeeds? && id in old(channel) && remove.Succeeds?)
      ensures r == Done ==>
        && channel == old(channel) - {id}
        && index.rows == old(index.rows) - {id}
        && effects == old(effects) + [Removed(id), Unindexed(id)]
      ensures r != Done ==>
        r.Failed? && channel == old(channel) && index.rows == old(index.rows) && effects == old(effects)
      ensures old(Consistent()) ==> Consistent()
    {
      var refusal := DeleteRefusal(RowOf(index.rows, id), userId, isRoot);
      if refusal.Some? {
        return Failed(refusal.value);
      }
      if fetch.Throws? {
        return Failed(fetch.message);
      }
      if id !in channel {
        return Failed(NOT_ON_STORAGE);
      }
      if remove.Throws? {
        return Failed(remove.message);
      }
      channel := channel - {id};
      effects := effects + [Removed(id)];
      var unindexed := index.DeleteFile(id);
      assert unindexed.Pass?;
      effects := effects + [Unindexed(id)];
      r := Done;
    }
  }
}
