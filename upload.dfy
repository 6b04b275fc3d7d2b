// server/routes/upload.js: the multer upload of one MP3 or text file. The uuid, the
// configured size limit and the incoming file part are parameters; the disk write and
// the upload directory are not modelled.

module Upload {
  import opened StrUtil
  import Helpers

  /** The file part as the browser sent it. */
  datatype Incoming = Incoming(originalname: string, mimetype: string, size: nat)

  /** The `file` object of a successful reply. */
  datatype FileInfo = FileInfo(filename: string, originalname: string, size: nat,
                               mimetype: string, url: string)

  datatype Reply = Stored(file: FileInfo) | Rejected(status: int, error: string)

  /** The default size limit, 100 MB. */
  const DefaultLimit := 100 * 1024 * 1024

  /** `parseInt(MAX_FILE_SIZE) || 100 MB`: `configured` is what `parseInt` gave, None
      for NaN; NaN and 0 both fall back to the default. */
  function FileSizeLimit(configured: Option<int>): (r: int)
    ensures configured.Some? && configured.value != 0 ==> r == configured.value
    ensures configured.None? || configured.value == 0 ==> r == DefaultLimit
    ensures r != 0
  {
    if configured.Some? && configured.value != 0 then configured.value else DefaultLimit
  }

  /** Node's `path.extname` (Windows rules, as for `path.basename`): from the last '.' of
      the final component to its end; empty when that component has no dot, starts with its last dot, or is "..". */
  function NodeExtname(p: string): (r: string)
    ensures r == [] || (r[0] == '.' && '.' !in r[1..] && |r| < |NodeBasename(p)|
                        && EndsWith(NodeBasename(p), r))
  {
    var b := NodeBasename(p);
    match LastIndexOf(b, '.')
    case None => []
    case Some(d) =>
      if d == 0 || b == ".." then []
      else LastIndexOfAfter(b, '.'); DotSuffix(b, d)
  }

  /** The text from the dot at `d` to the end, when no dot follows it. */
  function DotSuffix(b: string, d: nat): (r: string)
    requires 0 < d < |b| && b[d] == '.'
    requires forall j :: d < j < |b| ==> b[j] != '.'
    ensures |r| >= 1 && r[0] == '.' && '.' !in r[1..] && |r| < |b| && EndsWith(b, r)
  {
    var r := b[d..];
    assert forall j :: 0 <= j < |r[1..]| ==> r[1..][j] == b[d + 1 + j];
    r
  }

  /** The file filter: an audio or text MIME type, or the extension ".mp3" or ".txt" in
      any letter case. */
  predicate Accepted(mimetype: string, originalname: string)
  {
    AllowedType(mimetype) || AllowedExt(Lower(NodeExtname(originalname)))
  }

  predicate AllowedType(mimetype: string)
  {
    mimetype == "audio/mpeg" || mimetype == "audio/mp3" || mimetype == "text/plain"
  }

  predicate AllowedExt(ext: string) { ext == ".mp3" || ext == ".txt" }

  /** POST /api/upload. The filter runs when the part arrives, the size limit while it
      streams, the handler after both; the filter's error and the size error reach the
      error handler (500 with the message, and 400 for LIMIT_FILE_SIZE). */
  function Upload(file: Option<Incoming>, uuid: string, limit: int): (r: Reply)
    ensures r.Stored? <==> file.Some? && Accepted(file.value.mimetype, file.value.originalname)
                           && file.value.size <= limit
    ensures r.Stored? ==> r.file.filename == uuid + "-" + file.value.originalname
                          && r.file.url == "/api/files/" + r.file.filename
                          && r.file.originalname == file.value.originalname
                          && r.file.size == file.value.size
                          && r.file.mimetype == file.value.mimetype
    ensures file.None? ==> r == Rejected(400, "Keine Datei hochgeladen")
    ensures r.Rejected? && file.Some? ==>
      (r.status == 500 <==> !Accepted(file.value.mimetype, file.value.originalname))
    ensures r.Rejected? && file.Some? && r.status == 400 ==> r.error == "Datei zu gro\U{00DF}"
  {
    if file.None? then Rejected(400, "Keine Datei hochgeladen")
    else if !Accepted(file.value.mimetype, file.value.originalname) then
      Rejected(500, "Nur MP3- und TXT-Dateien erlaubt")
    else if file.value.size > limit then Rejected(400, "Datei zu gro\U{00DF}")
    else
      var name := uuid + "-" + file.value.originalname;
      Stored(FileInfo(name, file.value.originalname, file.value.size, file.value.mimetype,
                      "/api/files/" + name))
  }

  /** The stored name gives back the uuid and the original name, and two uploads with
      different uuids of the same length never share a stored name. */
  lemma StoredNameRoundTrip(f: Incoming, uuid: string, limit: int)
    requires Upload(Some(f), uuid, limit).Stored?
    ensures var name := Upload(Some(f), uuid, limit).file.filename;
      name[..|uuid|] == uuid && name[|uuid| + 1..] == f.originalname
      && EndsWith(name, f.originalname)
  {
    var name := Upload(Some(f), uuid, limit).file.filename;
    assert name == uuid + ("-" + f.originalname);
  }

  lemma DistinctUuidsDistinctNames(f: Incoming, g: Incoming, u: string, v: string, limit: int)
    requires |u| == |v| && u != v
    requires Upload(Some(f), u, limit).Stored? && Upload(Some(g), v, limit).Stored?
    ensures Upload(Some(f), u, limit).file.filename != Upload(Some(g), v, limit).file.filename
    ensures Upload(Some(f), u, limit).file.url != Upload(Some(g), v, limit).file.url
  {
    StoredNameRoundTrip(f, u, limit);
    StoredNameRoundTrip(g, v, limit);
    var a, b := Upload(Some(f), u, limit).file, Upload(Some(g), v, limit).file;
    PrefixInjective("/api/files/", a.filename, b.filename);
  }

  lemma PrefixInjective(p: string, a: string, b: string)
    ensures a != b ==> p + a != p + b
  {
    if p + a == p + b {
      assert a == (p + a)[|p|..] && b == (p + b)[|p|..];
    }
  }

  /** A name ending in a dotted extension of at least one more character, after a
      non-empty plain stem, has that extension. */
  lemma ExtnameOf(stem: string, ext: string)
    requires stem != [] && PlainName(stem)
    requires |ext| >= 2 && ext[0] == '.' && '.' !in ext[1..]
    requires forall i :: 0 <= i < |ext| ==> !WinSep(ext[i])
    ensures NodeExtname(stem + ext) == ext
  {
    var b := stem + ext;
    forall j | 0 <= j < |b| ensures !WinSep(b[j]) {
      if j >= |stem| { assert b[j] == ext[j - |stem|]; } else { assert b[j] == stem[j]; }
    }
    assert !DriveRoot(b) by {
      if |stem| >= 2 { assert b[..2] == stem[..2]; } else { assert b[1] == ext[0]; }
    }
    PlainBasename(b);
    forall j | |stem| < j < |b| ensures b[j] != '.' {
      assert b[j] == ext[1..][j - |stem| - 1];
    }
    LastIndexOfIs(b, |stem|, '.');
    assert b[|stem|..] == ext;
  }

  /** A dot-file such as ".mp3" has no extension. */
  lemma DotFileHasNoExtension(ext: string)
    requires ext != [] && ext[0] == '.' && '.' !in ext[1..]
    requires forall i :: 0 <= i < |ext| ==> !WinSep(ext[i])
    ensures NodeExtname(ext) == []
  {
    PlainBasename(ext);
    forall j | 0 < j < |ext| ensures ext[j] != '.' {
      assert ext[j] == ext[1..][j - 1];
    }
    LastIndexOfIs(ext, 0, '.');
  }

  /** The filter accepts a name ending in ".MP3" whatever the MIME type. */
  lemma UpperCaseExtensionAccepted(mimetype: string, stem: string)
    requires stem != [] && PlainName(stem)
    ensures Accepted(mimetype, stem + ".MP3")
  {
    ExtnameOf(stem, ".MP3");
    LowerMp3();
  }

  lemma LowerMp3()
    ensures Lower(".MP3") == ".mp3" && Lower(".mp3") == ".mp3"
  {
  }

  /** The helpers' name test sees a dot-file ".mp3" as an MP3 file; the upload filter,
      going by `path.extname`, rejects it unless its MIME type is allowed. */
  lemma DotFileRejectedHere(mimetype: string, size: nat, uuid: string, limit: int)
    requires !AllowedType(mimetype)
    ensures Helpers.IsValidMp3(mimetype, ".mp3")
    ensures Upload(Some(Incoming(".mp3", mimetype, size)), uuid, limit).Rejected?
    ensures Upload(Some(Incoming(".mp3", mimetype, size)), uuid, limit).status == 500
  {
    DotFileNotAccepted(mimetype);
    LowerMp3();
    assert EndsWith(Lower(".mp3"), ".mp3");
  }

  lemma DotFileNotAccepted(mimetype: string)
    requires !AllowedType(mimetype)
    ensures !Accepted(mimetype, ".mp3")
  {
    DotFileHasNoExtension(".mp3");
    assert Lower([]) == [];
  }

  /** `EndsWith` survives lower-casing. */
  lemma EndsWithLowered(s: string, t: string)
    requires EndsWith(s, t)
    ensures EndsWith(Lower(s), Lower(t))
  {
    assert s == s[..|s| - |t|] + t;
    LowerConcat(s[..|s| - |t|], t);
  }

  /** Only '.' lower-cases to '.'. */
  lemma LowerDot(c: char)
    ensures LowerChar(c) == '.' <==> c == '.'
  {
  }

  /** An allowed extension found by `path.extname` is one the helpers see at the end of
      the name. */
  lemma ExtnameAllowedEnds(name: string)
    requires PlainName(name) && AllowedExt(Lower(NodeExtname(name)))
    ensures NameEndsAllowed(name)
  {
    PlainBasename(name);
    EndsWithLowered(name, NodeExtname(name));
  }

  /** A name the helpers accept by its ending has that ending as its extension. */
  lemma EndingIsExtname(name: string)
    requires PlainName(name) && |name| > 4
    requires NameEndsAllowed(name)
    ensures AllowedExt(Lower(NodeExtname(name)))
  {
    var k := |name| - 4;
    var tail := name[k..];
    assert name == name[..k] + tail;
    LowerConcat(name[..k], tail);
    assert Lower(tail) == Lower(name)[k..];
    LowerIndex(tail, 0);
    LowerDot(tail[0]);
    forall j | 0 <= j < 3 ensures tail[1..][j] != '.' {
      LowerIndex(tail, j + 1);
      LowerDot(tail[j + 1]);
    }
    forall j | 0 <= j < |tail| ensures !WinSep(tail[j]) {
      assert tail[j] == name[k + j];
    }
    assert PlainName(name[..k]) by {
      forall j | 0 <= j < k ensures !WinSep(name[..k][j]) {
        assert name[..k][j] == name[j];
      }
      if k >= 2 { assert name[..k][..2] == name[..2]; }
    }
    ExtnameOf(name[..k], tail);
  }

  /** For a name without separators or drive (as browsers send it) and longer than its
      four-character extension, the upload filter and the helpers'
      `isValidMP3 || isValidTextFile` agree. */
  lemma AcceptedLikeHelpers(mimetype: string, name: string)
    requires PlainName(name) && |name| > 4
    ensures Accepted(mimetype, name) <==>
      Helpers.IsValidMp3(mimetype, name) || Helpers.IsValidTextFile(mimetype, name)
  {
    HelpersByName(mimetype, name);
    if AllowedExt(Lower(NodeExtname(name))) {
      ExtnameAllowedEnds(name);
    }
    if NameEndsAllowed(name) {
      EndingIsExtname(name);
    }
  }

  /** The helpers accept by MIME type or by the lower-cased ending of the name. */
  predicate NameEndsAllowed(name: string)
  {
    EndsWith(Lower(name), ".mp3") || EndsWith(Lower(name), ".txt")
  }

  lemma HelpersByName(mimetype: string, name: string)
    ensures Helpers.IsValidMp3(mimetype, name) || Helpers.IsValidTextFile(mimetype, name)
            <==> AllowedType(mimetype) || NameEndsAllowed(name)
  {
  }
}
