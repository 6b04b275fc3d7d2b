// server/routes/files.js: loading a local file by absolute path, streaming it with HTTP
// byte ranges (sections 2.1 and 4.2 of RFC 7233), and serving and deleting uploads.
// File-system answers (existence, kind, size, content) and the resolved paths are
// parameters; the streams themselves are not modelled.

module Files {
  import opened StrUtil

  // ---------------------------------------------------------------------
  // parseInt(s, 10)

  /** The number of decimal digits at the start of `t`. */
  function LeadingDigits(t: string): (n: nat)
    ensures n <= |t| && AllDigits(t[..n]) && (n == |t| || !IsDigit(t[n]))
    decreases |t|
  {
    if t == [] || !IsDigit(t[0]) then 0
    else
      var n := LeadingDigits(t[1..]) + 1;
      assert forall i :: 1 <= i < n ==> t[..n][i] == t[1..][..n - 1][i - 1];
      n
  }

  /** `parseInt(s, 10)`: leading white space skipped, an optional sign, then the longest
      run of digits; NaN when there is none. */
  function ParseInt(s: string): (r: JsNumber)
  {
    var t := TrimStart(s, JsSpace);
    if t != [] && (t[0] == '-' || t[0] == '+') then
      var u := t[1..];
      var n := LeadingDigits(u);
      if n == 0 then NaN
      else if t[0] == '-' then Num(0 - DigitsValue(u[..n])) else Num(DigitsValue(u[..n]))
    else
      var n := LeadingDigits(t);
      if n == 0 then NaN else Num(DigitsValue(t[..n]))
  }

  /** A run of digits is read up to the first character that is not a digit. */
  lemma ParseIntDigits(d: string, rest: string)
    requires d != [] && AllDigits(d) && (rest == [] || !IsDigit(rest[0]))
    ensures ParseInt(d + rest) == Num(DigitsValue(d))
  {
    var s := d + rest;
    assert s[0] == d[0];
    DigitNotWhite(s[0]);
    ParseIntUnsigned(s);
    DigitsPrefix(d, rest);
    assert s[..|d|] == d;
  }

  lemma ParseIntAllDigits(d: string)
    requires d != [] && AllDigits(d)
    ensures ParseInt(d) == Num(DigitsValue(d))
  {
    ParseIntDigits(d, []);
    assert d + [] == d;
  }

  lemma DigitNotWhite(c: char)
    requires IsDigit(c)
    ensures !White(JsSpace, c) && c != '-' && c != '+'
  {
  }

  /** Text that starts with neither white space nor a sign is read as its leading digits. */
  lemma ParseIntUnsigned(t: string)
    requires t != [] && !White(JsSpace, t[0]) && t[0] != '-' && t[0] != '+'
    ensures ParseInt(t) == if LeadingDigits(t) == 0 then NaN else Num(DigitsValue(t[..LeadingDigits(t)]))
  {
    assert TrimStart(t, JsSpace) == t;
  }

  lemma {:induction false} DigitsPrefix(d: string, rest: string)
    requires AllDigits(d) && (rest == [] || !IsDigit(rest[0]))
    ensures LeadingDigits(d + rest) == |d|
    decreases |d|
  {
    if d != [] {
      DigitsPrefix(d[1..], rest);
      assert (d + rest)[1..] == d[1..] + rest;
    } else {
      assert d + rest == rest;
    }
  }

  /** Without a digit there is no number. */
  lemma ParseIntEmpty()
    ensures ParseInt("") == NaN
  {
  }

  /** How JavaScript prints a number in a template string. */
  function NumText(x: JsNumber): string
  {
    match x
    case NaN => "NaN"
    case Num(v) => if v < 0 then "-" + NatToString(-v) else NatToString(v)
  }

  // ---------------------------------------------------------------------
  // GET /stream

  /** `range.replace(/bytes=/, '')`: the first "bytes=" anywhere is removed. */
  function RemoveFirst(s: string, p: string): (r: string)
  {
    match IndexOf(s, p)
    case None => s
    case Some(i) => s[..i] + s[i + |p|..]
  }

  /** The headers of a 206 answer: start, end, Content-Length and Content-Range, all
      computed without validation. */
  datatype RangeHead = RangeHead(start: JsNumber, end: JsNumber, length: JsNumber,
                                 contentRange: string)

  function RangeHeaders(range: string, size: nat): (r: RangeHead)
    ensures r.length == JsAdd(JsAdd(r.end, JsScale(r.start, -1)), Num(1))
    ensures r.contentRange == "bytes " + NumText(r.start) + "-" + NumText(r.end) + "/" + NatToString(size)
  {
    var parts := Split(RemoveFirst(range, "bytes="), '-');
    var start := ParseInt(parts[0]);
    var end := if |parts| > 1 && parts[1] != [] then ParseInt(parts[1]) else Num(size - 1);
    RangeHead(start, end, JsAdd(JsAdd(end, JsScale(start, -1)), Num(1)),
              "bytes " + NumText(start) + "-" + NumText(end) + "/" + NatToString(size))
  }

  datatype StreamReply =
    | StreamError(status: int, error: string)
    | Partial(head: RangeHead)
    | Whole(length: nat)

  /** Number.MAX_SAFE_INTEGER, the largest position a read stream accepts. */
  const MaxSafeInteger: int := 9007199254740991

  /** A byte position `fs.createReadStream` accepts: an integer from 0 to
      Number.MAX_SAFE_INTEGER. */
  predicate StreamPosition(x: JsNumber)
  {
    x.Num? && 0 <= x.n <= MaxSafeInteger
  }

  /** The options { start, end } that `fs.createReadStream` accepts without throwing:
      both positions valid and the start not after the end. */
  predicate ReadableRange(h: RangeHead)
  {
    StreamPosition(h.start) && StreamPosition(h.end) && h.start.n <= h.end.n
  }

  /** GET /api/files/stream?path=...: 400 without a path, 404 for a missing file, then
      206 with the range headers when a Range header is given, else 200 with the size.
      The read stream is opened before the 206 head is written, so a range it refuses
      ends in the catch: 500 with the exception's message, `streamFailure`. */
  function Stream(path: Option<string>, present: bool, size: nat, range: Option<string>,
                  streamFailure: string): (r: StreamReply)
    ensures path.None? || path.value == [] ==> r == StreamError(400, "Dateipfad fehlt")
    ensures path.Some? && path.value != [] && !present ==> r == StreamError(404, "Datei nicht gefunden")
    ensures r.Partial? <==> (path.Some? && path.value != [] && present && range.Some? && range.value != []
                             && ReadableRange(RangeHeaders(range.value, size)))
    ensures r == StreamError(500, streamFailure) <==>
              (path.Some? && path.value != [] && present && range.Some? && range.value != []
               && !ReadableRange(RangeHeaders(range.value, size)))
    ensures r.Partial? ==> r.head.length.Num? && 1 <= r.head.length.n
    ensures r.Whole? <==> (path.Some? && path.value != [] && present && (range.None? || range.value == []))
    ensures r.Whole? ==> r.length == size
  {
    if path.None? || path.value == [] then StreamError(400, "Dateipfad fehlt")
    else if !present then StreamError(404, "Datei nicht gefunden")
    else if range.Some? && range.value != [] then
      var head := RangeHeaders(range.value, size);
      if ReadableRange(head) then Partial(head) else StreamError(500, streamFailure)
    else Whole(size)
  }

  /** The header "bytes=" + first + "-" + second is taken apart at its dash. */
  lemma RangeParts(first: string, second: string)
    requires '-' !in first && '-' !in second
    ensures Split(RemoveFirst("bytes=" + first + "-" + second, "bytes="), '-') == [first, second]
  {
    var s := "bytes=" + first + "-" + second;
    assert OccursAt(s, "bytes=", 0) by { assert s[..6] == "bytes="; }
    assert IndexOf(s, "bytes=") == Some(0);
    assert RemoveFirst(s, "bytes=") == first + "-" + second by {
      assert s[6..] == first + "-" + second;
    }
    assert Join([first, second], "-") == first + "-" + second by {
      assert [first, second][..1] == [first];
    }
    SplitJoin([first, second], '-');
  }

  /** The headers of "bytes=first-second": the start read from `first`, the end from
      `second` or, when that is empty, the last byte of the file. */
  lemma RangeHeadersOf(range: string, first: string, second: string, size: nat)
    requires '-' !in first && '-' !in second && range == "bytes=" + first + "-" + second
    ensures var h := RangeHeaders(range, size);
      h.start == ParseInt(first)
      && h.end == (if second != [] then ParseInt(second) else Num(size - 1))
  {
    RangeParts(first, second);
  }

  /** "bytes=a-b" gives start a, end b and the length b - a + 1. */
  lemma ClosedRange(range: string, a: string, b: string, size: nat)
    requires a != [] && b != [] && AllDigits(a) && AllDigits(b) && range == "bytes=" + a + "-" + b
    ensures RangeHeaders(range, size).start == Num(DigitsValue(a))
    ensures RangeHeaders(range, size).end == Num(DigitsValue(b))
    ensures RangeHeaders(range, size).length == Num(DigitsValue(b) - DigitsValue(a) + 1)
  {
    ClosedRangeBounds(range, a, b, size);
    RangeLength(range, size, DigitsValue(a), DigitsValue(b));
  }

  lemma ClosedRangeBounds(range: string, a: string, b: string, size: nat)
    requires a != [] && b != [] && AllDigits(a) && AllDigits(b) && range == "bytes=" + a + "-" + b
    ensures RangeHeaders(range, size).start == Num(DigitsValue(a))
    ensures RangeHeaders(range, size).end == Num(DigitsValue(b))
  {
    NoDash(a);
    NoDash(b);
    RangeHeadersOf(range, a, b, size);
    ParseIntAllDigits(a);
    ParseIntAllDigits(b);
  }

  lemma NoDash(d: string)
    requires AllDigits(d)
    ensures '-' !in d
  {
    assert forall i :: 0 <= i < |d| ==> d[i] != '-' by {
      forall i | 0 <= i < |d| ensures d[i] != '-' { assert IsDigit(d[i]); }
    }
  }

  /** A range printed canonically comes back unchanged in Content-Range. */
  lemma ContentRangeEchoes(a: nat, b: nat, size: nat)
    ensures RangeHeaders("bytes=" + NatToString(a) + "-" + NatToString(b), size).contentRange
      == "bytes " + NatToString(a) + "-" + NatToString(b) + "/" + NatToString(size)
  {
    ClosedRange("bytes=" + NatToString(a) + "-" + NatToString(b), NatToString(a), NatToString(b), size);
    DigitsValueOfNat(a);
    DigitsValueOfNat(b);
  }

  /** "bytes=a-" runs to the last byte of the file. */
  lemma OpenRange(range: string, a: string, size: nat)
    requires a != [] && AllDigits(a) && range == "bytes=" + a + "-"
    ensures RangeHeaders(range, size).start == Num(DigitsValue(a))
    ensures RangeHeaders(range, size).end == Num(size - 1)
    ensures RangeHeaders(range, size).length == Num(size - DigitsValue(a))
  {
    NoDash(a);
    assert range + "" == range;
    RangeHeadersOf(range, a, "", size);
    ParseIntAllDigits(a);
    RangeLength(range, size, DigitsValue(a), size - 1);
  }

  /** Content-Length is end - start + 1 once both are numbers. */
  lemma RangeLength(range: string, size: nat, start: int, end: int)
    requires RangeHeaders(range, size).start == Num(start)
    requires RangeHeaders(range, size).end == Num(end)
    ensures RangeHeaders(range, size).length == Num(end - start + 1)
  {
  }

  lemma OpenRangeBounds(a: string, size: nat)
    requires a != [] && AllDigits(a)
    ensures var h := RangeHeaders("bytes=" + a + "-", size);
      h.start == Num(DigitsValue(a)) && h.end == Num(size - 1)
  {
    NoDash(a);
    var range := "bytes=" + a + "-";
    assert range + "" == range;
    RangeHeadersOf(range, a, "", size);
    ParseIntAllDigits(a);
  }

  /** A suffix range "bytes=-n" (section 2.1 of RFC 7233) has no start: the start and the
      length are NaN. */
  lemma SuffixRangeUnread(b: string, size: nat)
    requires '-' !in b
    ensures RangeHeaders("bytes=-" + b, size).start == NaN
    ensures RangeHeaders("bytes=-" + b, size).length == NaN
  {
    assert "bytes=" + "" + "-" + b == "bytes=-" + b;
    RangeHeadersOf("bytes=-" + b, "", b, size);
    ParseIntEmpty();
  }

  /** A range whose start lies after its end is refused by the read stream before any
      head is written: the answer is 500, not the 416 of section 4.4 of RFC 7233. */
  lemma UnsatisfiableRangeAnswered(range: string, a: string, b: string, size: nat, failure: string)
    requires a != [] && b != [] && AllDigits(a) && AllDigits(b) && range == "bytes=" + a + "-" + b
    requires DigitsValue(a) > DigitsValue(b)
    ensures Stream(Some("/x.mp3"), true, size, Some(range), failure) == StreamError(500, failure)
  {
    ClosedRangeBounds(range, a, b, size);
    RangeRefused(range, size, failure);
  }

  /** A range "bytes=a-b" with a <= b inside the safe integers is served with 206 and
      Content-Length b - a + 1. */
  lemma SatisfiableRangeServed(range: string, a: string, b: string, size: nat, failure: string)
    requires a != [] && b != [] && AllDigits(a) && AllDigits(b) && range == "bytes=" + a + "-" + b
    requires DigitsValue(a) <= DigitsValue(b) <= MaxSafeInteger
    ensures var r := Stream(Some("/x.mp3"), true, size, Some(range), failure);
      r.Partial? && r.head.length == Num(DigitsValue(b) - DigitsValue(a) + 1)
  {
    ClosedRange(range, a, b, size);
    RangeServed(range, size, failure);
  }

  /** A suffix range "bytes=-n" has a NaN start, which the read stream refuses: 500. */
  lemma SuffixRangeFails(b: string, size: nat, failure: string)
    requires '-' !in b
    ensures Stream(Some("/x.mp3"), true, size, Some("bytes=-" + b), failure)
      == StreamError(500, failure)
  {
    SuffixRangeUnread(b, size);
    RangeRefused("bytes=-" + b, size, failure);
  }

  /** On an empty file an open range "bytes=a-" ends at position -1, which the read stream
      refuses: 500. */
  lemma EmptyFileOpenRangeFails(a: string, failure: string)
    requires a != [] && AllDigits(a)
    ensures Stream(Some("/x.mp3"), true, 0, Some("bytes=" + a + "-"), failure)
      == StreamError(500, failure)
  {
    OpenRangeBounds(a, 0);
    RangeRefused("bytes=" + a + "-", 0, failure);
  }

  lemma RangeServed(range: string, size: nat, failure: string)
    requires range != [] && ReadableRange(RangeHeaders(range, size))
    ensures Stream(Some("/x.mp3"), true, size, Some(range), failure) == Partial(RangeHeaders(range, size))
  {
  }

  lemma RangeRefused(range: string, size: nat, failure: string)
    requires range != [] && !ReadableRange(RangeHeaders(range, size))
    ensures Stream(Some("/x.mp3"), true, size, Some(range), failure) == StreamError(500, failure)
  {
  }

  // ---------------------------------------------------------------------
  // GET /load-local

  datatype LoadReply =
    | LoadError(status: int, error: string)
    | Mp3File(name: string, url: string, size: nat, path: string)
    | TextFile(content: string, path: string)

  /** GET /api/files/load-local?path=...&type=...: `origin` is the request's
      protocol://host and `encodedPath` the path after `encodeURIComponent`. */
  function LoadLocal(path: Option<string>, fileType: Option<string>, present: bool, isFile: bool,
                     size: nat, content: string, origin: string, encodedPath: string): (r: LoadReply)
    ensures path.None? || path.value == [] ==> r == LoadError(400, "Dateipfad fehlt")
    ensures path.Some? && path.value != [] && !present ==> r == LoadError(404, "Datei nicht gefunden")
    ensures path.Some? && path.value != [] && present && !isFile ==> r == LoadError(400, "Pfad ist keine Datei")
    ensures r.Mp3File? <==>
      path.Some? && path.value != [] && present && isFile && (fileType.None? || fileType.value in ["", "mp3"])
    ensures r.Mp3File? ==> forall i :: 0 <= i < |r.name| ==> !WinSep(r.name[i])
    ensures r.Mp3File? ==> r.name == NodeBasename(path.value)
                           && r.url == origin + "/api/files/stream?path=" + encodedPath
                           && r.size == size && r.path == path.value
    ensures r.TextFile? <==> path.Some? && path.value != [] && present && isFile && fileType == Some("txt")
    ensures r.TextFile? ==> r.content == content && r.path == path.value
  {
    var t := if fileType.None? || fileType.value == [] then "mp3" else fileType.value;
    if path.None? || path.value == [] then LoadError(400, "Dateipfad fehlt")
    else if !present then LoadError(404, "Datei nicht gefunden")
    else if !isFile then LoadError(400, "Pfad ist keine Datei")
    else if t == "mp3" then
      Mp3File(NodeBasename(path.value), origin + "/api/files/stream?path=" + encodedPath, size, path.value)
    else if t == "txt" then TextFile(content, path.value)
    else LoadError(400, "Ung\U{00FC}ltiger Dateityp")
  }

  /** A local MP3 picked by its Windows path is named by its file name alone. */
  lemma LoadLocalNamesFile(dir: string, sep: char, name: string, size: nat, content: string,
                           origin: string, encodedPath: string)
    requires WinSep(sep) && name != [] && PlainName(name)
    ensures LoadLocal(Some(dir + [sep] + name), None, true, true, size, content, origin, encodedPath).name == name
  {
    BasenameAfterSep(dir, sep, name);
  }

  // ---------------------------------------------------------------------
  // GET and DELETE /:filename

  datatype FileReply = NotFound | Forbidden | SendFile(path: string) | Deleted(path: string)

  /** The served path lies in the directory: it starts with the directory and either is
      the directory itself or continues it after a separator (a backslash or '/', as the
      server's resolved Windows paths have them). */
  predicate Within(resolvedPath: string, resolvedDir: string)
  {
    StartsWith(resolvedPath, resolvedDir)
    && (|resolvedPath| == |resolvedDir| || WinSep(resolvedPath[|resolvedDir|])
        || (resolvedDir != [] && WinSep(resolvedDir[|resolvedDir| - 1])))
  }

  /** GET /api/files/:filename as written: 404 for a missing file, then the plain prefix
      test `resolvedPath.startsWith(resolvedUploadDir)`. */
  function GetFileAsWritten(present: bool, resolvedPath: string, resolvedDir: string): (r: FileReply)
    ensures !present ==> r == NotFound
    ensures r.SendFile? <==> present && StartsWith(resolvedPath, resolvedDir)
  {
    if !present then NotFound
    else if !StartsWith(resolvedPath, resolvedDir) then Forbidden
    else SendFile(resolvedPath)
  }

  /** The prefix test lets through a sibling directory whose name extends the upload
      directory's: "D:\\app\\uploads-old\\a.mp3" is served for "D:\\app\\uploads". */
  lemma SiblingDirectoryServed()
    ensures GetFileAsWritten(true, "D:\\app\\uploads-old\\a.mp3", "D:\\app\\uploads").SendFile?
    ensures !Within("D:\\app\\uploads-old\\a.mp3", "D:\\app\\uploads")
  {
    var p, d := "D:\\app\\uploads-old\\a.mp3", "D:\\app\\uploads";
    assert p[..|d|] == d;
    assert p[|d|] == '-' && d[|d| - 1] == 's';
  }

  /** GET /api/files/:filename with the containment the security check is meant to give:
      existence first, then the path must lie in the upload directory. */
  function GetFile(present: bool, resolvedPath: string, resolvedDir: string): (r: FileReply)
    ensures !present ==> r == NotFound
    ensures r.SendFile? <==> present && Within(resolvedPath, resolvedDir)
    ensures r.SendFile? ==> r.path == resolvedPath
  {
    if !present then NotFound
    else if !Within(resolvedPath, resolvedDir) then Forbidden
    else SendFile(resolvedPath)
  }

  /** Whatever the corrected check serves, the check as written serves too: the two
      differ only on paths outside the directory. */
  lemma CorrectedServesLess(present: bool, resolvedPath: string, resolvedDir: string)
    ensures GetFile(present, resolvedPath, resolvedDir).SendFile? ==>
      GetFileAsWritten(present, resolvedPath, resolvedDir) == GetFile(present, resolvedPath, resolvedDir)
    ensures GetFileAsWritten(present, resolvedPath, resolvedDir).SendFile?
            && !GetFile(present, resolvedPath, resolvedDir).SendFile? ==>
      !Within(resolvedPath, resolvedDir)
  {
  }

  /** The corrected check serves every existing file below the directory, whichever
      separator follows the directory's name. */
  lemma InsideServed(resolvedDir: string, sep: char, rest: string)
    requires WinSep(sep)
    ensures GetFile(true, resolvedDir + [sep] + rest, resolvedDir) == SendFile(resolvedDir + [sep] + rest)
  {
    var p := resolvedDir + [sep] + rest;
    assert p[..|resolvedDir|] == resolvedDir;
    assert p[|resolvedDir|] == sep;
  }

  /** A file that does not exist is reported missing before the containment check, even
      far outside the directory. */
  lemma MissingBeforeContainment(resolvedPath: string, resolvedDir: string)
    ensures GetFileAsWritten(false, resolvedPath, resolvedDir) == NotFound
    ensures GetFile(false, resolvedPath, resolvedDir) == NotFound
  {
  }

  /** DELETE /api/files/:filename: the file is removed after only the existence check. */
  function Delete(present: bool, path: string): (r: FileReply)
    ensures r == NotFound <==> !present
    ensures r.Deleted? ==> r.path == path
  {
    if !present then NotFound else Deleted(path)
  }

  /** Deleting does not look at the upload directory at all: an existing file outside it
      is deleted. */
  lemma DeleteIgnoresContainment(path: string, resolvedDir: string)
    requires !Within(path, resolvedDir)
    ensures Delete(true, path) == Deleted(path)
    ensures GetFile(true, path, resolvedDir) == Forbidden
  {
  }
}
