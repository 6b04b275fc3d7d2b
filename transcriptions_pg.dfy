// server/routes/transcriptions-pg.js: the per-transcription handlers behind
// authenticateJWT. The database row the handler looks up, the requester's claims and
// the request body are parameters; the queries themselves and the audit log are not
// modelled.

module TranscriptionsPg {
  import opened StrUtil
  import opened SqlUpdate
  import Auth

  /** The stored row, as far as the handlers read it. */
  datatype Row = Row(userId: string, mp3Filename: string, text: string, hasSummary: bool,
                     mp3Data: Option<seq<bv8>>, size: nat)

  /** The uploaded audio part of a create request. */
  datatype Audio = Audio(data: seq<bv8>, size: nat)

  datatype Reply =
    | Fail(status: int, error: string)
    | Found(row: Row)
    | Created(row: Row)
    | AudioBody(contentLength: nat, disposition: string, data: seq<bv8>)
    | Attachment(filename: string, text: string)
    | Updated(sql: string, params: seq<Param>)
    | Removed

  /** Owner or admin. */
  predicate MayAccess(user: Auth.Claims, row: Row)
  {
    row.userId == user.id || user.isAdmin
  }

  /** The shared guard: no row gives 404, a row of someone else 403 unless the requester
      is an admin; None lets the handler go on. */
  function Guard(row: Option<Row>, user: Auth.Claims): (r: Option<Reply>)
    ensures row.None? ==> r == Some(Fail(404, "Transkription nicht gefunden."))
    ensures row.Some? && !MayAccess(user, row.value) ==> r == Some(Fail(403, "Zugriff verweigert."))
    ensures r.None? <==> row.Some? && MayAccess(user, row.value)
  {
    if row.None? then Some(Fail(404, "Transkription nicht gefunden."))
    else if !MayAccess(user, row.value) then Some(Fail(403, "Zugriff verweigert."))
    else None
  }

  /** GET /api/transcriptions/:id. */
  method Get(row: Option<Row>, user: Auth.Claims) returns (r: Reply)
    ensures row.None? ==> r == Fail(404, "Transkription nicht gefunden.")
    ensures r.Found? <==> row.Some? && MayAccess(user, row.value)
    ensures r.Found? ==> r.row == row.value
    ensures row.Some? && !MayAccess(user, row.value) ==> r == Fail(403, "Zugriff verweigert.")
  {
    var g := Guard(row, user);
    if g.Some? {
      return g.value;
    }
    return Found(row.value);
  }

  /** GET /api/transcriptions/:id/audio: the missing audio is only noticed after the
      permission test. */
  method GetAudio(row: Option<Row>, user: Auth.Claims) returns (r: Reply)
    ensures row.None? ==> r == Fail(404, "Transkription nicht gefunden.")
    ensures row.Some? && !MayAccess(user, row.value) ==> r == Fail(403, "Zugriff verweigert.")
    ensures row.Some? && MayAccess(user, row.value) && row.value.mp3Data.None? ==>
      r == Fail(404, "MP3-Datei nicht gefunden.")
    ensures r.AudioBody? <==> row.Some? && MayAccess(user, row.value) && row.value.mp3Data.Some?
    ensures r.AudioBody? ==>
      r.data == row.value.mp3Data.value && r.contentLength == row.value.size
      && r.disposition == "inline; filename=\"" + row.value.mp3Filename + "\""
  {
    var g := Guard(row, user);
    if g.Some? {
      return g.value;
    }
    var t := row.value;
    if t.mp3Data.None? {
      return Fail(404, "MP3-Datei nicht gefunden.");
    }
    return AudioBody(t.size, "inline; filename=\"" + t.mp3Filename + "\"", t.mp3Data.value);
  }

  /** `mp3_filename.replace(/\.[^/.]+$/, '')`: a final dot followed by one or more
      characters that are neither '.' nor '/' is removed. */
  function StripExtension(f: string): (r: string)
    ensures StartsWith(f, r)
    ensures r == f || (|f| - |r| >= 2 && f[|r|] == '.' && '.' !in f[|r| + 1..] && '/' !in f[|r| + 1..])
  {
    match LastIndexOf(f, '.')
    case None => f
    case Some(d) =>
      if d < |f| - 1 && '/' !in f[d + 1..] then
        LastIndexOfAfter(f, '.');
        var t := f[d + 1..];
        assert forall j :: 0 <= j < |t| ==> t[j] == f[d + 1 + j];
        f[..d]
      else f
  }

  /** The attachment name: the audio name without its extension, then
      "_transcription.txt". */
  function DownloadName(mp3Filename: string): (r: string)
    ensures EndsWith(r, "_transcription.txt")
  {
    var b := StripExtension(mp3Filename);
    assert (b + "_transcription.txt")[|b|..] == "_transcription.txt";
    b + "_transcription.txt"
  }

  /** The extension after the last dot goes, whatever the stem. */
  lemma DownloadNameOf(stem: string, ext: string)
    requires ext != [] && '.' !in ext && '/' !in ext
    ensures DownloadName(stem + "." + ext) == stem + "_transcription.txt"
  {
    var f := stem + "." + ext;
    forall j | |stem| < j < |f| ensures f[j] != '.' {
      assert f[j] == ext[j - |stem| - 1];
    }
    LastIndexOfIs(f, |stem|, '.');
    assert f[|stem| + 1..] == ext;
    assert f[..|stem|] == stem;
  }

  /** A dot in a directory name is not an extension: a name whose last dot is followed
      by a '/' is kept whole. */
  lemma DirectoryDotKept(dir: string, rest: string)
    requires '.' !in rest && '/' in rest
    ensures DownloadName(dir + "." + rest) == dir + "." + rest + "_transcription.txt"
  {
    var f := dir + "." + rest;
    forall j | |dir| < j < |f| ensures f[j] != '.' {
      assert f[j] == rest[j - |dir| - 1];
    }
    LastIndexOfIs(f, |dir|, '.');
    assert f[|dir| + 1..] == rest;
  }

  /** GET /api/transcriptions/:id/download. */
  method Download(row: Option<Row>, user: Auth.Claims) returns (r: Reply)
    ensures row.None? ==> r == Fail(404, "Transkription nicht gefunden.")
    ensures row.Some? && !MayAccess(user, row.value) ==> r == Fail(403, "Zugriff verweigert.")
    ensures row.Some? && MayAccess(user, row.value) && row.value.text == [] ==>
      r == Fail(404, "Transkription ist leer.")
    ensures r.Attachment? <==> row.Some? && MayAccess(user, row.value) && row.value.text != []
    ensures r.Attachment? ==>
      r.filename == DownloadName(row.value.mp3Filename) && r.text == row.value.text
  {
    var g := Guard(row, user);
    if g.Some? {
      return g.value;
    }
    var t := row.value;
    if t.text == [] {
      return Fail(404, "Transkription ist leer.");
    }
    return Attachment(DownloadName(t.mp3Filename), t.text);
  }

  /** The columns PUT sets: transcription_text, then has_summary, each when present. */
  function UpdateColumns(text: Option<string>, hasSummary: Option<bool>): seq<string>
  {
    (if text.Some? then ["transcription_text"] else [])
    + (if hasSummary.Some? then ["has_summary"] else [])
  }

  /** Their values, in the same order. */
  function UpdateValues(text: Option<string>, hasSummary: Option<bool>): seq<Param>
  {
    (if text.Some? then [Text(text.value)] else [])
    + (if hasSummary.Some? then [Flag(hasSummary.value)] else [])
  }

  /** The UPDATE builder of PUT: pushes the present fields in order, the id last.
      `sql` is None when there is nothing to set. */
  method BuildUpdate(id: string, text: Option<string>, hasSummary: Option<bool>)
    returns (sql: Option<string>, params: seq<Param>)
    ensures sql.None? <==> text.None? && hasSummary.None?
    ensures sql.Some? ==> params == UpdateValues(text, hasSummary) + [Text(id)]
    ensures sql.Some? ==> sql.value == UpdateSql("transcriptions", UpdateColumns(text, hasSummary), |params|)
  {
    var b := new UpdateBuilder();
    if text.Some? {
      b.Push("transcription_text", Text(text.value));
    }
    if hasSummary.Some? {
      b.Push("has_summary", Flag(hasSummary.value));
    }
    assert b.columns == UpdateColumns(text, hasSummary) && b.values == UpdateValues(text, hasSummary);
    sql, params := b.Statement("transcriptions", id);
  }

  /** With both fields, transcription_text takes placeholder $1 and has_summary $2,
      and the values follow in that order with the id third, matching "WHERE id = $3". */
  lemma BothFieldsNumbered(id: string, text: string, hasSummary: bool)
    ensures UpdateColumns(Some(text), Some(hasSummary)) == ["transcription_text", "has_summary"]
    ensures UpdateValues(Some(text), Some(hasSummary)) + [Text(id)] == [Text(text), Flag(hasSummary), Text(id)]
    ensures Placeholder(Assignments(UpdateColumns(Some(text), Some(hasSummary)), 1)[0]) == Some(1)
    ensures Placeholder(Assignments(UpdateColumns(Some(text), Some(hasSummary)), 1)[1]) == Some(2)
  {
    var cols := UpdateColumns(Some(text), Some(hasSummary));
    assert cols == ["transcription_text", "has_summary"];
    PlaceholdersConsecutive(cols, 0);
    PlaceholdersConsecutive(cols, 1);
  }

  /** PUT /api/transcriptions/:id: the statement sets the present fields with
      placeholders 1, 2, ... and binds the id to the one after; neither field gives 400. */
  method Update(row: Option<Row>, user: Auth.Claims, id: string,
                text: Option<string>, hasSummary: Option<bool>) returns (r: Reply)
    ensures row.None? ==> r == Fail(404, "Transkription nicht gefunden.")
    ensures row.Some? && !MayAccess(user, row.value) ==> r == Fail(403, "Zugriff verweigert.")
    ensures row.Some? && MayAccess(user, row.value) && text.None? && hasSummary.None? ==>
      r == Fail(400, "Keine \U{00C4}nderungen angegeben.")
    ensures r.Updated? <==> row.Some? && MayAccess(user, row.value) && (text.Some? || hasSummary.Some?)
    ensures r.Updated? ==> r.params == UpdateValues(text, hasSummary) + [Text(id)]
    ensures r.Updated? ==> r.sql == UpdateSql("transcriptions", UpdateColumns(text, hasSummary), |r.params|)
  {
    var g := Guard(row, user);
    if g.Some? {
      return g.value;
    }
    var sql, params := BuildUpdate(id, text, hasSummary);
    if sql.None? {
      return Fail(400, "Keine \U{00C4}nderungen angegeben.");
    }
    return Updated(sql.value, params);
  }

  /** DELETE /api/transcriptions/:id. */
  method Delete(row: Option<Row>, user: Auth.Claims) returns (r: Reply)
    ensures row.None? ==> r == Fail(404, "Transkription nicht gefunden.")
    ensures row.Some? && !MayAccess(user, row.value) ==> r == Fail(403, "Zugriff verweigert.")
    ensures r == Removed <==> row.Some? && MayAccess(user, row.value)
  {
    var g := Guard(row, user);
    if g.Some? {
      return g.value;
    }
    return Removed;
  }

  /** POST /api/transcriptions. `targetExists` is the answer of the lookup of
      target_user_id; falsy fields take their defaults. */
  method Create(user: Auth.Claims, mp3Filename: Option<string>, text: Option<string>,
                hasSummary: Option<bool>, targetUserId: Option<string>, targetExists: bool,
                file: Option<Audio>) returns (r: Reply)
    ensures mp3Filename.None? || mp3Filename.value == [] ==>
      r == Fail(400, "MP3-Dateiname ist erforderlich.")
    ensures r.Created? ==> r.row.mp3Filename == mp3Filename.value && mp3Filename.value != []
    ensures r.Created? ==>
      r.row.userId == (if user.isAdmin && targetUserId.Some? && targetUserId.value != [] then targetUserId.value else user.id)
    ensures r.Created? <==>
      (mp3Filename.Some? && mp3Filename.value != []
       && !(user.isAdmin && targetUserId.Some? && targetUserId.value != [] && !targetExists))
    ensures !user.isAdmin && mp3Filename.Some? && mp3Filename.value != [] ==> r.Created? && r.row.userId == user.id
    ensures user.isAdmin && mp3Filename.Some? && mp3Filename.value != []
            && targetUserId.Some? && targetUserId.value != [] && !targetExists ==>
      r == Fail(400, "Ziel-User nicht gefunden.")
    ensures r.Created? ==> r.row.text == (if text.Some? then text.value else "")
    ensures r.Created? ==> r.row.hasSummary == (hasSummary == Some(true))
    ensures r.Created? ==> r.row.mp3Data == (if file.Some? then Some(file.value.data) else None)
    ensures r.Created? ==> r.row.size == (if file.Some? then file.value.size else 0)
  {
    if mp3Filename.None? || mp3Filename.value == [] {
      return Fail(400, "MP3-Dateiname ist erforderlich.");
    }
    var userId := user.id;
    if targetUserId.Some? && targetUserId.value != [] && user.isAdmin {
      if !targetExists {
        return Fail(400, "Ziel-User nicht gefunden.");
      }
      userId := targetUserId.value;
    }
    var data: Option<seq<bv8>> := None;
    var size := 0;
    if file.Some? {
      data := Some(file.value.data);
      size := file.value.size;
    }
    var t := if text.Some? then text.value else "";
    var s := if hasSummary.Some? then hasSummary.value else false;
    return Created(Row(userId, mp3Filename.value, t, s, data, size));
  }
}
