// The local AI service (a FastAPI application on the Windows machine): API-key gate,
// ANSI clean-up of worker output, server-sent event encoding, upload and temp-file
// naming, the directory listing filter, and the two streaming endpoints that run the
// transcription and summarisation workers.

module LocalService {
  import opened StrUtil

  // ---------------------------------------------------------------------
  // API key

  /** `verify_api_key`: the status it raises, or None when the request may proceed.
      An empty configured key switches authentication off. */
  function ApiKeyStatus(configured: string, given: Option<string>): (r: Option<nat>)
    ensures r.None? <==> configured == [] || given == Some(configured)
    ensures r.Some? ==> r.value == 401
  {
    if configured != [] && given != Some(configured) then Some(401) else None
  }

  // ---------------------------------------------------------------------
  // ANSI control sequences: ESC '[' [0-9;]* followed by one of m G K H f

  const Esc: char := '\U{001B}'

  predicate ParamChar(c: char) { IsDigit(c) || c == ';' }
  predicate FinalChar(c: char) { c == 'm' || c == 'G' || c == 'K' || c == 'H' || c == 'f' }

  /** Length of the run of parameter characters at the start of `s`. */
  function ParamRun(s: string): (r: nat)
    ensures r <= |s|
    ensures forall i :: 0 <= i < r ==> ParamChar(s[i])
    ensures r < |s| ==> !ParamChar(s[r])
  {
    if s != [] && ParamChar(s[0]) then 1 + ParamRun(s[1..]) else 0
  }

  /** Length of the control sequence that starts `s`, 0 when none does. The greedy
      parameter run cannot give back a character, since no parameter character is a
      final one, so the match at a position is unique. */
  function SequenceLength(s: string): (r: nat)
    ensures r <= |s|
    ensures r > 0 ==> r >= 3 && s[0] == Esc && s[1] == '[' && FinalChar(s[r - 1])
    ensures forall i :: 2 <= i < r - 1 ==> ParamChar(s[i])
  {
    if |s| >= 2 && s[0] == Esc && s[1] == '[' then
      var k := 2 + ParamRun(s[2..]);
      if k < |s| && FinalChar(s[k]) then k + 1 else 0
    else 0
  }

  /** `strip_ansi`: `re.sub` scans left to right, deleting each control sequence found
      at the scan position and keeping every other character. */
  function StripAnsi(s: string): (r: string)
    ensures |r| <= |s|
    decreases |s|
  {
    if s == [] then []
    else if SequenceLength(s) > 0 then StripAnsi(s[SequenceLength(s)..])
    else [s[0]] + StripAnsi(s[1..])
  }

  /** A character that can be part of a control sequence. */
  predicate SequenceChar(c: char) { c == Esc || c == '[' || ParamChar(c) || FinalChar(c) }

  /** The characters of `s` that can never belong to a control sequence, in order. */
  function Plain(s: string): string
  {
    if s == [] then [] else (if SequenceChar(s[0]) then [] else [s[0]]) + Plain(s[1..])
  }

  /** Text without ESC passes unchanged. */
  lemma {:induction false} StripAnsiNoEscape(s: string)
    requires Esc !in s
    ensures StripAnsi(s) == s
    decreases |s|
  {
    if s != [] {
      assert s[0] in s;
      StripAnsiNoEscape(s[1..]);
    }
  }

  /** Every character that cannot be part of a control sequence survives, in order. */
  lemma {:induction false} StripAnsiKeepsPlain(s: string)
    ensures Plain(StripAnsi(s)) == Plain(s)
    decreases |s|
  {
    if s != [] {
      var n := SequenceLength(s);
      if n > 0 {
        StripAnsiKeepsPlain(s[n..]);
        SequenceChars(s, n);
        PlainSkipsSequence(s, n);
      } else {
        StripAnsiKeepsPlain(s[1..]);
        PlainCons(s[0], StripAnsi(s[1..]));
      }
    }
  }

  lemma SequenceChars(s: string, n: nat)
    requires n == SequenceLength(s) && n > 0
    ensures forall i :: 0 <= i < n ==> SequenceChar(s[i])
  {
  }

  lemma PlainCons(c: char, t: string)
    ensures Plain([c] + t) == (if SequenceChar(c) then [] else [c]) + Plain(t)
  {
    assert ([c] + t)[1..] == t;
  }

  lemma {:induction false} PlainSkipsSequence(s: string, n: nat)
    requires n <= |s|
    requires forall i :: 0 <= i < n ==> SequenceChar(s[i])
    ensures Plain(s) == Plain(s[n..])
  {
    if n > 0 {
      PlainSkipsSequence(s[1..], n - 1);
      assert s[1..][n - 1..] == s[n..];
    }
  }

  /** Deleting one sequence can join the pieces of another, so a second pass may still
      change the text: `strip_ansi` is not idempotent. */
  lemma StripAnsiNotIdempotent()
    ensures StripAnsi([Esc, Esc, '[', 'm', '[', 'm']) == [Esc, '[', 'm']
    ensures StripAnsi([Esc, '[', 'm']) == []
  {
    var s := [Esc, Esc, '[', 'm', '[', 'm'];
    assert SequenceLength(s) == 0;
    assert s[1..] == [Esc, '[', 'm', '[', 'm'];
    assert SequenceLength(s[1..]) == 3;
    assert s[1..][3..] == ['[', 'm'];
    assert StripAnsi(['[', 'm']) == ['[', 'm'];
    assert [Esc, '[', 'm'][3..] == [];
  }

  // ---------------------------------------------------------------------
  // JSON encoding as `json.dumps(data, ensure_ascii=False)` writes it

  function HexDigit(d: nat): char
    requires d < 16
  {
    if d < 10 then DigitChar(d) else ('a' as int + d - 10) as char
  }

  /** Escape of one character: backslash, quote and the control characters below
      U+0020; everything else, non-ASCII included, is written as itself. */
  function EscapeChar(c: char): string
  {
    if c == '\\' then "\\\\"
    else if c == '"' then "\\\""
    else if c == '\n' then "\\n"
    else if c == '\r' then "\\r"
    else if c == '\t' then "\\t"
    else if c == '\U{0008}' then "\\b"
    else if c == '\U{000C}' then "\\f"
    else if c < ' ' then "\\u00" + [HexDigit(c as int / 16), HexDigit(c as int % 16)]
    else [c]
  }

  function Escape(s: string): string
  {
    if s == [] then [] else EscapeChar(s[0]) + Escape(s[1..])
  }

  function JsonString(s: string): string { "\"" + Escape(s) + "\"" }

  /** `str(i)` and the JSON spelling of an integer. */
  function IntToString(i: int): string
  {
    if i < 0 then "-" + NatToString(-i) else NatToString(i)
  }

  /** A float rounded to one decimal, given in tenths, as Python prints it. */
  function TenthsToString(d: nat): string
  {
    NatToString(d / 10) + "." + [DigitChar(d % 10)]
  }

  datatype Json = JStr(s: string) | JInt(i: int) | JTenths(d: nat)

  function JsonValue(v: Json): string
  {
    match v
    case JStr(s) => JsonString(s)
    case JInt(i) => IntToString(i)
    case JTenths(d) => TenthsToString(d)
  }

  function Member(f: (string, Json)): string { JsonString(f.0) + ": " + JsonValue(f.1) }

  function Members(fields: seq<(string, Json)>): string
  {
    if fields == [] then ""
    else if |fields| == 1 then Member(fields[0])
    else Members(fields[..|fields| - 1]) + ", " + Member(fields[|fields| - 1])
  }

  /** A JSON object with the default separators `", "` and `": "`, keys in order. */
  function JsonObject(fields: seq<(string, Json)>): string { "{" + Members(fields) + "}" }

  // Decoding, to show that the escaping loses nothing.

  function Prepend(c: char, r: Option<string>): Option<string>
  {
    if r.Some? then Some([c] + r.value) else None
  }

  function ShortEscape(c: char): Option<char>
  {
    if c == '"' || c == '\\' || c == '/' then Some(c)
    else if c == 'n' then Some('\n')
    else if c == 'r' then Some('\r')
    else if c == 't' then Some('\t')
    else if c == 'b' then Some('\U{0008}')
    else if c == 'f' then Some('\U{000C}')
    else None
  }

  predicate IsHexDigit(c: char) { IsDigit(c) || 'a' <= c <= 'f' || 'A' <= c <= 'F' }

  function HexValue(c: char): (r: nat)
    requires IsHexDigit(c)
    ensures r < 16
  {
    if IsDigit(c) then DigitValue(c)
    else if 'a' <= c <= 'f' then c as int - 'a' as int + 10
    else c as int - 'A' as int + 10
  }

  /** The code unit written by four hex digits. */
  function HexQuad(a: char, b: char, c: char, d: char): (r: nat)
    requires IsHexDigit(a) && IsHexDigit(b) && IsHexDigit(c) && IsHexDigit(d)
    ensures r < 0x1_0000
  {
    HexValue(a) * 4096 + HexValue(b) * 256 + HexValue(c) * 16 + HexValue(d)
  }

  /** The body of a JSON string literal decoded, for the escapes of the Basic
      Multilingual Plane outside the surrogate range; None when it is malformed. */
  function Unescape(t: string): Option<string>
    decreases |t|
  {
    if t == [] then Some([])
    else if t[0] == '\\' then
      if |t| >= 2 && ShortEscape(t[1]).Some? then Prepend(ShortEscape(t[1]).value, Unescape(t[2..]))
      else if |t| >= 6 && t[1] == 'u' && IsHexDigit(t[2]) && IsHexDigit(t[3])
              && IsHexDigit(t[4]) && IsHexDigit(t[5]) then
        var v := HexQuad(t[2], t[3], t[4], t[5]);
        if v < 0xD800 || 0xE000 <= v then Prepend(v as char, Unescape(t[6..])) else None
      else None
    else if t[0] == '"' || t[0] < ' ' then None
    else Prepend(t[0], Unescape(t[1..]))
  }

  /** Decoding undoes the escaping of every string. */
  lemma {:induction false} EscapeRoundTrip(s: string)
    ensures Unescape(Escape(s)) == Some(s)
    decreases |s|
  {
    if s != [] {
      EscapeRoundTrip(s[1..]);
      UnescapeChar(s[0], Escape(s[1..]));
      assert [s[0]] + s[1..] == s;
    }
  }

  lemma UnescapeChar(c: char, rest: string)
    ensures Unescape(EscapeChar(c) + rest) == Prepend(c, Unescape(rest))
  {
    var t := EscapeChar(c) + rest;
    if c < ' ' && c != '\n' && c != '\r' && c != '\t' && c != '\U{0008}' && c != '\U{000C}' {
      UnescapeControl(c, rest);
    } else if |EscapeChar(c)| == 2 {
      assert t[2..] == rest;
    } else {
      assert t[1..] == rest;
    }
  }

  lemma UnescapeControl(c: char, rest: string)
    requires c < ' ' && c != '\n' && c != '\r' && c != '\t' && c != '\U{0008}' && c != '\U{000C}'
    ensures Unescape(EscapeChar(c) + rest) == Prepend(c, Unescape(rest))
  {
    var hi, lo := c as int / 16, c as int % 16;
    var t := EscapeChar(c) + rest;
    assert t[..6] == ['\\', 'u', '0', '0', HexDigit(hi), HexDigit(lo)];
    HexDigitValue(hi);
    HexDigitValue(lo);
    assert t[6..] == rest;
  }

  lemma HexDigitValue(d: nat)
    requires d < 16
    ensures IsHexDigit(HexDigit(d)) && HexValue(HexDigit(d)) == d
  {
  }

  /** No escaped text holds a raw line break. */
  lemma {:induction false} EscapeNoBreak(s: string)
    ensures '\n' !in Escape(s) && '\r' !in Escape(s)
    decreases |s|
  {
    if s != [] {
      EscapeNoBreak(s[1..]);
      EscapeCharNoBreak(s[0]);
      NoBreakConcat(EscapeChar(s[0]), Escape(s[1..]));
    }
  }

  lemma EscapeCharNoBreak(c: char)
    ensures '\n' !in EscapeChar(c) && '\r' !in EscapeChar(c)
  {
    if c < ' ' {
      HexDigitValue(c as int / 16);
      HexDigitValue(c as int % 16);
    }
  }

  lemma NoBreakConcat(a: string, b: string)
    requires '\n' !in a && '\r' !in a && '\n' !in b && '\r' !in b
    ensures '\n' !in a + b && '\r' !in a + b
  {
  }

  lemma NatToStringNoBreak(n: nat)
    ensures '\n' !in NatToString(n) && '\r' !in NatToString(n)
  {
  }

  lemma ValueNoBreak(v: Json)
    ensures '\n' !in JsonValue(v) && '\r' !in JsonValue(v)
  {
    match v
    case JStr(s) => EscapeNoBreak(s);
    case JInt(i) => NatToStringNoBreak(if i < 0 then -i else i);
    case JTenths(d) => NatToStringNoBreak(d / 10);
  }

  lemma MemberNoBreak(f: (string, Json))
    ensures '\n' !in Member(f) && '\r' !in Member(f)
  {
    EscapeNoBreak(f.0);
    ValueNoBreak(f.1);
  }

  lemma {:induction false} MembersNoBreak(fields: seq<(string, Json)>)
    ensures '\n' !in Members(fields) && '\r' !in Members(fields)
    decreases |fields|
  {
    if |fields| == 1 {
      MemberNoBreak(fields[0]);
    } else if |fields| > 1 {
      MembersNoBreak(fields[..|fields| - 1]);
      MemberNoBreak(fields[|fields| - 1]);
    }
  }

  // ---------------------------------------------------------------------
  // Server-sent events

  /** The events the two endpoints stream. `Failure` events written before the worker
      starts carry no `step`; `Complete` carries `mp3Filename` after a transcription and
      `mode` after a summary. */
  datatype Event =
    | Progress(step: string, message: string, progress: int)
    | Failure(hasStep: bool, message: string, exitCode: Option<int>)
    | Complete(message: string, text: string, filename: string, mp3Filename: Option<string>,
               duration: nat, mode: Option<string>)

  predicate IsTerminal(e: Event) { e.Failure? || e.Complete? }

  /** The JSON object of an event, keys in the order the source writes them. */
  function Fields(e: Event): seq<(string, Json)>
  {
    match e
    case Progress(step, message, progress) =>
      [("type", JStr("progress")), ("step", JStr(step)), ("message", JStr(message)),
       ("progress", JInt(progress))]
    case Failure(hasStep, message, exitCode) =>
      [("type", JStr("error"))] + (if hasStep then [("step", JStr("error"))] else [])
      + [("message", JStr(message))]
      + (if exitCode.Some? then [("exitCode", JInt(exitCode.value))] else [])
    case Complete(message, text, filename, mp3Filename, duration, mode) =>
      [("type", JStr("complete")), ("step", JStr("complete")), ("message", JStr(message)),
       ("progress", JInt(100)), ("transcription", JStr(text)), ("filename", JStr(filename))]
      + (if mp3Filename.Some? then [("mp3Filename", JStr(mp3Filename.value))] else [])
      + [("duration", JTenths(duration))]
      + (if mode.Some? then [("mode", JStr(mode.value))] else [])
  }

  /** `sse_event`: one `data:` field and the blank line that ends the event. */
  function SseEvent(e: Event): string
  {
    "data: " + JsonObject(Fields(e)) + "\n\n"
  }

  /** Each call is exactly one event: the only line breaks are the final two, so a
      client that splits the stream at blank lines sees this event whole. */
  lemma SseEventIsOneEvent(e: Event)
    ensures StartsWith(SseEvent(e), "data: ") && EndsWith(SseEvent(e), "\n\n")
    ensures '\n' !in SseEvent(e)[..|SseEvent(e)| - 2] && '\r' !in SseEvent(e)
    ensures IndexOf(SseEvent(e), "\n\n") == Some(|SseEvent(e)| - 2)
  {
    var fields := Fields(e);
    MembersNoBreak(fields);
    DataLine(Members(fields));
  }

  /** The event text around a payload free of line breaks. */
  lemma DataLine(members: string)
    requires '\n' !in members && '\r' !in members
    ensures var r := "data: " + ("{" + members + "}") + "\n\n";
      StartsWith(r, "data: ") && EndsWith(r, "\n\n") && '\n' !in r[..|r| - 2] && '\r' !in r
      && IndexOf(r, "\n\n") == Some(|r| - 2)
  {
    var body := "data: " + ("{" + members + "}");
    var r := body + "\n\n";
    assert r[..|r| - 2] == body;
    assert r[..6] == "data: ";
    assert r[|r| - 2..] == "\n\n";
    FirstBlankLine(r, body);
  }

  lemma FirstBlankLine(r: string, body: string)
    requires r == body + "\n\n" && '\n' !in body
    ensures IndexOf(r, "\n\n") == Some(|body|)
  {
    assert OccursAt(r, "\n\n", |body|);
    forall j | 0 <= j < |body| ensures !OccursAt(r, "\n\n", j) {
      assert r[j] == body[j];
    }
  }

  // ---------------------------------------------------------------------
  // Windows path names (the service runs on Windows)

  /** `ntpath.splitdrive` for drive letters: a second character ':' ends the drive. */
  function DropDrive(p: string): string
  {
    if |p| >= 2 && p[1] == ':' then p[2..] else p
  }

  /** `os.path.basename` on Windows. */
  function NtBasename(p: string): string { AfterLastSep(DropDrive(p)) }

  /** `PureWindowsPath(p).name`: the last component, where empty and "." components
      do not count. */
  function PathName(p: string): string { LastComponent(DropDrive(p)) }

  function LastComponent(p: string): string
    decreases |p|
  {
    if p == [] then []
    else if WinSep(p[|p| - 1]) then LastComponent(p[..|p| - 1])
    else if AfterLastSep(p) == "." then LastComponent(p[..|p| - 1])
    else AfterLastSep(p)
  }

  /** Where `pathlib`'s suffix of a name starts: at its last '.', unless that dot is the
      first or the last character. */
  function SuffixStart(name: string): Option<nat>
  {
    match LastIndexOf(name, '.')
    case None => None
    case Some(i) => if 0 < i < |name| - 1 then Some(i) else None
  }

  function Stem(name: string): string
  {
    match SuffixStart(name)
    case None => name
    case Some(i) => name[..i]
  }

  function Suffix(name: string): string
  {
    match SuffixStart(name)
    case None => ""
    case Some(i) => name[i..]
  }

  lemma StemSuffix(name: string)
    ensures Stem(name) + Suffix(name) == name
    ensures Suffix(name) == [] || (Suffix(name)[0] == '.' && |Suffix(name)| >= 2 && Stem(name) != [])
  {
    match SuffixStart(name)
    case None =>
    case Some(i) => assert name[..i] + name[i..] == name;
  }

  /** `Path(p).stem`. */
  function PathStem(p: string): string { Stem(PathName(p)) }

  // ---------------------------------------------------------------------
  // Upload and temp-file names

  predicate SafeChar(c: char) { IsAlnumAscii(c) || c == '.' || c == '_' || c == '-' }

  /** `re.sub(r'[^a-zA-Z0-9._\-]', '_', s)`. */
  function Sanitize(s: string): (r: string)
    ensures |r| == |s|
    ensures forall i :: 0 <= i < |s| ==> r[i] == (if SafeChar(s[i]) then s[i] else '_')
  {
    if s == [] then [] else [if SafeChar(s[0]) then s[0] else '_'] + Sanitize(s[1..])
  }

  /** Sanitising yields only safe characters, and safe text is left as it is, so a
      second pass changes nothing. */
  lemma SanitizeSafe(s: string)
    ensures forall i :: 0 <= i < |s| ==> SafeChar(Sanitize(s)[i])
    ensures (forall i :: 0 <= i < |s| ==> SafeChar(s[i])) ==> Sanitize(s) == s
    ensures Sanitize(Sanitize(s)) == Sanitize(s)
  {
  }

  /** `files_save`: the stored name and the `originalFilename` it reports. */
  function UploadOriginal(upload: string): string { Sanitize(NtBasename(upload)) }

  function UploadStored(upload: string): string
  {
    var name := PathName(UploadOriginal(upload));
    Stem(name) + "_temp" + Suffix(name)
  }

  /** Where `_temp` sits before the last dot of `f` with something after that dot,
      the index of that dot. */
  function TempDot(f: string): Option<nat>
  {
    match LastIndexOf(f, '.')
    case None => None
    case Some(d) => if 5 <= d < |f| - 1 && f[d - 5..d] == "_temp" then Some(d) else None
  }

  /** `re.match(r'^.+_temp\.[^.]+$', f)`: the dot must be the last one, and `.+` needs
      at least one character and no line feed before `_temp`. */
  predicate IsTempFile(f: string)
  {
    TempDot(f).Some? && TempDot(f).value >= 6 && '\n' !in f[..TempDot(f).value - 5]
  }

  /** `re.sub(r'_temp(\.[^.]+)$', r'\1', f)`. */
  function DisplayName(f: string): string
  {
    match TempDot(f)
    case None => f
    case Some(d) => f[..d - 5] + f[d..]
  }

  /** A temp name built from a stem and an extension is recognised, and its display
      name gives the original name back. */
  lemma TempNameRoundTrip(stem: string, ext: string)
    requires stem != [] && '\n' !in stem && ext != [] && '.' !in ext
    ensures IsTempFile(stem + "_temp." + ext)
    ensures DisplayName(stem + "_temp." + ext) == stem + "." + ext
  {
    TempNameDot(stem, ext, stem + "_temp." + ext, |stem| + 5);
    TempNameParts(stem, ext, stem + "_temp." + ext, |stem| + 5);
  }

  lemma TempNameDot(stem: string, ext: string, f: string, d: nat)
    requires ext != [] && '.' !in ext && f == stem + "_temp." + ext && d == |stem| + 5
    ensures TempDot(f) == Some(d)
  {
    forall k | d < k < |f| ensures f[k] != '.' {
      assert f[k] == ext[k - d - 1];
    }
    assert f[d] == '.';
    LastIndexOfIs(f, d, '.');
    assert f[d - 5..d] == "_temp";
  }

  lemma TempNameParts(stem: string, ext: string, f: string, d: nat)
    requires f == stem + "_temp." + ext && d == |stem| + 5
    ensures f[..d - 5] == stem && f[d..] == "." + ext
  {
  }

  /** An uploaded file with an extension is stored under a temp name whose display name
      is the reported `originalFilename`. */
  lemma UploadRoundTrip(upload: string)
    requires Suffix(UploadOriginal(upload)) != []
    ensures IsTempFile(UploadStored(upload))
    ensures DisplayName(UploadStored(upload)) == UploadOriginal(upload)
  {
    var safe := UploadOriginal(upload);
    SanitizeSafe(NtBasename(upload));
    SafeNameIsName(safe);
    SafeRoundTrip(safe);
  }

  lemma SafeRoundTrip(safe: string)
    requires forall k :: 0 <= k < |safe| ==> SafeChar(safe[k])
    requires Suffix(safe) != []
    ensures IsTempFile(Stem(safe) + "_temp" + Suffix(safe))
    ensures DisplayName(Stem(safe) + "_temp" + Suffix(safe)) == safe
  {
    var i := SuffixStart(safe).value;
    SuffixParts(safe, i);
    NoLineFeed(safe, i);
    TempNameOf(Stem(safe) + "_temp" + Suffix(safe), safe[..i], safe[i + 1..]);
  }

  lemma TempNameOf(f: string, stem: string, ext: string)
    requires f == stem + "_temp" + ("." + ext)
    requires stem != [] && '\n' !in stem && ext != [] && '.' !in ext
    ensures IsTempFile(f) && DisplayName(f) == stem + "." + ext
  {
    assert f == stem + "_temp." + ext;
    TempNameRoundTrip(stem, ext);
  }

  lemma SuffixParts(safe: string, i: nat)
    requires SuffixStart(safe) == Some(i)
    ensures Stem(safe) == safe[..i] && Suffix(safe) == "." + safe[i + 1..]
    ensures safe[i + 1..] != [] && '.' !in safe[i + 1..] && i > 0
    ensures safe[..i] + "." + safe[i + 1..] == safe
  {
    LastIndexOfAfter(safe, '.');
    var ext := safe[i + 1..];
    forall k | 0 <= k < |ext| ensures ext[k] != '.' {
      assert ext[k] == safe[i + 1 + k];
    }
    assert safe[i..] == "." + ext;
    assert safe[..i] + safe[i..] == safe;
  }

  lemma NoLineFeed(safe: string, i: nat)
    requires i <= |safe|
    requires forall k :: 0 <= k < |safe| ==> SafeChar(safe[k])
    ensures '\n' !in safe[..i]
  {
  }

  /** A name of safe characters has no separator and no drive, so it is its own path
      name, except that `Path(".")` is the empty path. */
  lemma SafeNameIsName(safe: string)
    requires forall k :: 0 <= k < |safe| ==> SafeChar(safe[k])
    ensures safe != "." ==> PathName(safe) == safe
  {
    assert DropDrive(safe) == safe by {
      if |safe| >= 2 { assert SafeChar(safe[1]); }
    }
    if safe != [] {
      assert !WinSep(safe[|safe| - 1]) by { assert SafeChar(safe[|safe| - 1]); }
      SafeAfterLastSep(safe);
    }
  }

  lemma {:induction false} SafeAfterLastSep(safe: string)
    requires forall k :: 0 <= k < |safe| ==> SafeChar(safe[k])
    ensures AfterLastSep(safe) == safe
  {
    if safe != [] {
      SafeAfterLastSep(safe[..|safe| - 1]);
    }
  }

  /** The two patterns disagree on a bare `_temp` stem: not a temp file, yet its display
      name drops `_temp`. */
  lemma BareTempStem()
    ensures !IsTempFile("_temp.mp3") && DisplayName("_temp.mp3") == ".mp3"
  {
    BareTempDot("_temp.mp3");
    assert "_temp.mp3"[..0] + "_temp.mp3"[5..] == ".mp3";
  }

  lemma BareTempDot(f: string)
    requires f == "_temp.mp3"
    ensures TempDot(f) == Some(5)
  {
    LastIndexOfIs(f, 5, '.');
    assert f[0..5] == "_temp";
  }

  // ---------------------------------------------------------------------
  // Directory listing

  /** Whether `files_list` shows a file name for the requested type. */
  predicate Listed(kind: string, f: string)
  {
    if kind == "mp3" then EndsWith(Lower(f), ".mp3")
    else EndsWith(Lower(f), ".txt") && !EndsWith(Lower(f), "_s.txt")
  }

  function KeepListed(kind: string, names: seq<string>): (r: seq<string>)
    ensures |r| <= |names|
  {
    if names == [] then []
    else KeepListed(kind, names[..|names| - 1]) + KeepOne(kind, names[|names| - 1])
  }

  function KeepOne(kind: string, f: string): seq<string>
  {
    if Listed(kind, f) then [f] else []
  }

  /** The filter step of `files_list`: 400 for an unknown type, otherwise the names of
      that type in directory order (sorting by time is not part of this model). */
  function ListFiles(kind: string, names: seq<string>): Option<seq<string>>
  {
    if kind == "mp3" || kind == "txt" then Some(KeepListed(kind, names)) else None
  }

  /** A name is listed exactly when it is in the directory and has the type; summary
      files never appear in a `txt` listing. */
  lemma {:induction false} ListFilesMembers(kind: string, names: seq<string>, f: string)
    requires kind == "mp3" || kind == "txt"
    ensures f in ListFiles(kind, names).value <==> f in names && Listed(kind, f)
    ensures kind == "txt" && EndsWith(Lower(f), "_s.txt") ==> f !in ListFiles(kind, names).value
    decreases |names|
  {
    if names != [] {
      ListFilesMembers(kind, names[..|names| - 1], f);
      assert names == names[..|names| - 1] + [names[|names| - 1]];
    }
  }

  // ---------------------------------------------------------------------
  // Workers and the streaming endpoints

  /** What a worker process leaves behind: its output lines (line ends removed), its
      error output as one text, its exit code, and whether its result file exists
      afterwards and what it holds. The worker touches no other file. */
  datatype Worker = Worker(stdout: seq<string>, stderr: string, exitCode: int,
                           resultExists: bool, resultText: string)

  datatype Service = Transcriber | Summarizer

  const TranscribePhrases: seq<(string, int)> :=
    [("Lade Modell", 30), ("Modell geladen", 50), ("Transkription der mp3", 60),
     ("Transkription beendet", 90), ("erfolgreich gespeichert", 95)]

  const SummarizePhrases: seq<(string, int)> :=
    [("lade summarizer", 30), ("lade tokenizer", 40), ("teile transkription", 50),
     ("generiere \U{00FC}berschrift", 60), ("summary=", 70), ("speichern der summary", 90),
     ("erfolgreich gespeichert", 95)]

  /** Progress of a worker line: the first phrase found wins, 20 when none is; the
      summariser compares the lower-cased line. */
  function Classify(svc: Service, clean: string): int
  {
    if svc == Transcriber then FirstMatch(TranscribePhrases, clean, 20)
    else FirstMatch(SummarizePhrases, Lower(clean), 20)
  }

  /** The classifier is total: it always yields one of the listed values or 20. */
  lemma ClassifyRange(svc: Service, clean: string)
    ensures Classify(svc, clean) in {20, 30, 40, 50, 60, 70, 90, 95}
  {
    var t := if svc == Transcriber then TranscribePhrases else SummarizePhrases;
    var s := if svc == Transcriber then clean else Lower(clean);
    FirstMatchRange(t, s);
  }

  lemma {:induction false} FirstMatchRange(t: seq<(string, int)>, s: string)
    requires forall k :: 0 <= k < |t| ==> t[k].1 in {20, 30, 40, 50, 60, 70, 90, 95}
    ensures FirstMatch(t, s, 20) in {20, 30, 40, 50, 60, 70, 90, 95}
  {
    if t != [] && !Contains(s, t[0].0) {
      FirstMatchRange(t[1..], s);
    }
  }

  /** A line naming two phases reports the earlier entry of the table. */
  lemma TranscribeFirstPhraseWins(line: string)
    requires Contains(line, "Lade Modell")
    ensures Classify(Transcriber, line) == 30
  {
    FirstMatchIs(TranscribePhrases, line, 20, 0);
  }

  /** The event for one output line: none when it is blank after stripping, otherwise
      a `processing` event with the line without control sequences. */
  function LineEvent(svc: Service, line: string): seq<Event>
  {
    var t := Strip(line);
    if t == [] then [] else [Progress("processing", StripAnsi(t), Classify(svc, StripAnsi(t)))]
  }

  /** The event for one piece of the error output: a `warning` (type progress,
      progress 0) with the unstripped piece without control sequences, unless blank. */
  function PieceEvent(piece: string): seq<Event>
  {
    if Strip(piece) == [] then [] else [Progress("warning", StripAnsi(piece), 0)]
  }

  function ProcessingEvents(svc: Service, lines: seq<string>): seq<Event>
  {
    if lines == [] then [] else ProcessingEvents(svc, lines[..|lines| - 1]) + LineEvent(svc, lines[|lines| - 1])
  }

  function WarningEvents(pieces: seq<string>): seq<Event>
  {
    if pieces == [] then [] else WarningEvents(pieces[..|pieces| - 1]) + PieceEvent(pieces[|pieces| - 1])
  }

  lemma ProcessingStep(svc: Service, lines: seq<string>, i: nat)
    requires i < |lines|
    ensures ProcessingEvents(svc, lines[..i + 1]) == ProcessingEvents(svc, lines[..i]) + LineEvent(svc, lines[i])
  {
    assert lines[..i + 1][..i] == lines[..i];
  }

  lemma WarningStep(pieces: seq<string>, j: nat)
    requires j < |pieces|
    ensures WarningEvents(pieces[..j + 1]) == WarningEvents(pieces[..j]) + PieceEvent(pieces[j])
  {
    assert pieces[..j + 1][..j] == pieces[..j];
  }

  function StderrEvents(stderr: string): seq<Event>
  {
    if stderr == [] then [] else WarningEvents(Split(stderr, '\n'))
  }

  /** Events emitted while the worker's output is drained: its output lines first, then
      its error output. */
  function OutputEvents(svc: Service, w: Worker): seq<Event>
  {
    ProcessingEvents(svc, w.stdout) + StderrEvents(w.stderr)
  }

  lemma {:induction false} ProcessingNotTerminal(svc: Service, lines: seq<string>)
    ensures forall k :: 0 <= k < |ProcessingEvents(svc, lines)| ==>
      ProcessingEvents(svc, lines)[k].Progress? && ProcessingEvents(svc, lines)[k].step == "processing"
  {
    if lines != [] {
      ProcessingNotTerminal(svc, lines[..|lines| - 1]);
    }
  }

  lemma {:induction false} WarningsNotTerminal(pieces: seq<string>)
    ensures forall k :: 0 <= k < |WarningEvents(pieces)| ==>
      WarningEvents(pieces)[k] == Progress("warning", WarningEvents(pieces)[k].message, 0)
  {
    if pieces != [] {
      WarningsNotTerminal(pieces[..|pieces| - 1]);
    }
  }

  lemma OutputNotTerminal(svc: Service, w: Worker)
    ensures forall k :: 0 <= k < |OutputEvents(svc, w)| ==> OutputEvents(svc, w)[k].Progress?
  {
    ProcessingNotTerminal(svc, w.stdout);
    if w.stderr != [] {
      WarningsNotTerminal(Split(w.stderr, '\n'));
    }
  }

  /** The lines that produce events. */
  function NonBlank(lines: seq<string>): seq<string>
  {
    if lines == [] then []
    else if Strip(lines[|lines| - 1]) == [] then NonBlank(lines[..|lines| - 1])
    else NonBlank(lines[..|lines| - 1]) + [lines[|lines| - 1]]
  }

  /** Processing events correspond one to one, in order, to the non-blank lines. */
  lemma {:induction false} ProcessingPerLine(svc: Service, lines: seq<string>)
    ensures |ProcessingEvents(svc, lines)| == |NonBlank(lines)|
    ensures forall k :: 0 <= k < |NonBlank(lines)| ==>
      ProcessingEvents(svc, lines)[k].message == StripAnsi(Strip(NonBlank(lines)[k]))
  {
    if lines != [] {
      var init, line := lines[..|lines| - 1], lines[|lines| - 1];
      ProcessingPerLine(svc, init);
      if Strip(line) == [] {
        assert LineEvent(svc, line) == [];
        assert ProcessingEvents(svc, lines) == ProcessingEvents(svc, init);
      } else {
        var e := Progress("processing", StripAnsi(Strip(line)), Classify(svc, StripAnsi(Strip(line))));
        assert LineEvent(svc, line) == [e];
        PerLineAppend(ProcessingEvents(svc, init), NonBlank(init), e, line);
      }
    }
  }

  lemma PerLineAppend(events: seq<Event>, lines: seq<string>, e: Event, line: string)
    requires |events| == |lines|
    requires forall k :: 0 <= k < |lines| ==> events[k].message == StripAnsi(Strip(lines[k]))
    requires e.message == StripAnsi(Strip(line))
    ensures |events + [e]| == |lines + [line]|
    ensures forall k :: 0 <= k < |lines + [line]| ==>
      (events + [e])[k].message == StripAnsi(Strip((lines + [line])[k]))
  {
    forall k | 0 <= k < |lines + [line]|
      ensures (events + [e])[k].message == StripAnsi(Strip((lines + [line])[k]))
    {
      if k < |lines| {
        assert (events + [e])[k] == events[k];
        assert (lines + [line])[k] == lines[k];
      } else {
        assert (events + [e])[k] == e;
        assert (lines + [line])[k] == line;
      }
    }
  }

  /** The stream reads the worker's output lines, then its error output. */
  method DrainOutput(svc: Service, w: Worker) returns (events: seq<Event>)
    ensures events == OutputEvents(svc, w)
  {
    events := DrainLines(svc, w.stdout);
    if w.stderr != [] {
      var warnings := DrainPieces(Split(w.stderr, '\n'));
      events := events + warnings;
    }
  }

  method DrainLines(svc: Service, lines: seq<string>) returns (events: seq<Event>)
    ensures events == ProcessingEvents(svc, lines)
  {
    events := [];
    var i := 0;
    while i < |lines|
      invariant 0 <= i <= |lines|
      invariant events == ProcessingEvents(svc, lines[..i])
    {
      ProcessingStep(svc, lines, i);
      var line := Strip(lines[i]);
      if line != [] {
        var clean := StripAnsi(line);
        assert LineEvent(svc, lines[i]) == [Progress("processing", clean, Classify(svc, clean))];
        events := events + [Progress("processing", clean, Classify(svc, clean))];
      } else {
        assert LineEvent(svc, lines[i]) == [];
      }
      i := i + 1;
    }
    assert lines[..i] == lines;
  }

  method DrainPieces(pieces: seq<string>) returns (events: seq<Event>)
    ensures events == WarningEvents(pieces)
  {
    events := [];
    var j := 0;
    while j < |pieces|
      invariant 0 <= j <= |pieces|
      invariant events == WarningEvents(pieces[..j])
    {
      if Strip(pieces[j]) != [] {
        events := events + [Progress("warning", StripAnsi(pieces[j]), 0)];
      }
      WarningStep(pieces, j);
      j := j + 1;
    }
    assert pieces[..j] == pieces;
  }

  /** The files present once the worker has exited. */
  function AfterWorker(files: set<string>, result: string, w: Worker): set<string>
  {
    if w.resultExists then files + {result} else files - {result}
  }

  const WslMessage := "Starte WSL2 und Python-Environment..."

  /** Name of the transcription the worker writes for an input. */
  function TranscriptName(filename: string): string { PathStem(filename) + ".txt" }

  /** The temp input is removed when it is still there after the worker. */
  predicate TranscribeRemovesInput(filename: string, files: set<string>, w: Worker)
  {
    IsTempFile(filename) && filename in AfterWorker(files, TranscriptName(filename), w)
  }

  /** After a zero exit the transcription can be read. */
  predicate TranscriptFound(filename: string, files: set<string>, w: Worker)
  {
    var txt := TranscriptName(filename);
    txt in AfterWorker(files, txt, w) && !(TranscribeRemovesInput(filename, files, w) && txt == filename)
  }

  /** The stream of an endpoint: the opening events, the drained output, one final event. */
  lemma StreamShape(head: seq<Event>, output: seq<Event>, last: Event)
    requires forall k :: 0 <= k < |head| ==> head[k].Progress?
    requires forall k :: 0 <= k < |output| ==> output[k].Progress?
    requires IsTerminal(last)
    ensures var ev := head + output + [last];
      ev[..|head|] == head && ev[|head|..|ev| - 1] == output && ev[|ev| - 1] == last
      && forall k :: 0 <= k < |ev| - 1 ==> !IsTerminal(ev[k])
  {
    var ev := head + output + [last];
    assert ev[..|head|] == head;
    assert ev[|head|..|ev| - 1] == output;
    forall k | 0 <= k < |ev| - 1 ensures !IsTerminal(ev[k]) {
      if k < |head| { assert ev[k] == head[k]; } else { assert ev[k] == output[k - |head|]; }
    }
  }

  /** The end of a transcription stream, once the worker has exited: the final event and
      the files deleted. */
  method TranscribeFinish(filename: string, files: set<string>, w: Worker, duration: nat)
    returns (last: Event, deleted: seq<string>)
    ensures TranscribeLast(filename, files, w, last, deleted)
    ensures w.exitCode != 0 ==>
      last == Failure(true, "Transkription fehlgeschlagen (Exit-Code: " + IntToString(w.exitCode) + ")",
        Some(w.exitCode))
    ensures w.exitCode == 0 && !TranscriptFound(filename, files, w) ==>
      last == Failure(true, "Transkriptionsdatei wurde nicht erstellt", None)
    ensures w.exitCode == 0 && TranscriptFound(filename, files, w) ==>
      last == Complete("Transkription abgeschlossen in " + TenthsToString(duration) + "s",
        w.resultText, PathStem(DisplayName(filename)) + ".txt", Some(DisplayName(filename)), duration, None)
    ensures deleted ==
      (if TranscribeRemovesInput(filename, files, w) then [filename] else [])
      + (if IsTempFile(filename) && last.Complete? then [TranscriptName(filename)] else [])
  {
    var temp := IsTempFile(filename);
    var txt := TranscriptName(filename);
    var fs := AfterWorker(files, txt, w);
    fs, deleted := Unlink(temp, filename, fs);
    if w.exitCode != 0 {
      last := Failure(true, "Transkription fehlgeschlagen (Exit-Code: " + IntToString(w.exitCode) + ")",
        Some(w.exitCode));
      return;
    }
    if txt !in fs {
      last := Failure(true, "Transkriptionsdatei wurde nicht erstellt", None);
      return;
    }
    var text := w.resultText;
    var more;
    fs, more := Unlink(temp, txt, fs);
    deleted := deleted + more;
    var display := DisplayName(filename);
    last := Complete("Transkription abgeschlossen in " + TenthsToString(duration) + "s",
      text, PathStem(display) + ".txt", Some(display), duration, None);
  }

  /** `if temp and os.path.isfile(path): os.unlink(path)`. */
  method Unlink(temp: bool, name: string, files: set<string>) returns (left: set<string>, deleted: seq<string>)
    ensures temp && name in files ==> left == files - {name} && deleted == [name]
    ensures !(temp && name in files) ==> left == files && deleted == []
  {
    if temp && name in files {
      left, deleted := files - {name}, [name];
    } else {
      left, deleted := files, [];
    }
  }

  /** POST /transcribe: the status raised before streaming (401, 404), or 200 with the
      streamed events and the files deleted, in order. */
  method Transcribe(apiKey: string, header: Option<string>, filename: string,
                    files: set<string>, w: Worker, duration: nat)
    returns (status: nat, events: seq<Event>, deleted: seq<string>)
    ensures status == 401 <==> ApiKeyStatus(apiKey, header).Some?
    ensures status == 404 <==> ApiKeyStatus(apiKey, header).None? && filename !in files
    ensures status != 401 && status != 404 <==> status == 200
    ensures status != 200 ==> events == [] && deleted == []
    ensures status == 200 ==> TranscribeStreamed(filename, files, w, events, deleted)
    ensures !IsTempFile(filename) ==> deleted == []
  {
    events, deleted := [], [];
    var auth := ApiKeyStatus(apiKey, header);
    if auth.Some? {
      return auth.value, events, deleted;
    }
    if filename !in files {
      return 404, events, deleted;
    }
    status := 200;
    events, deleted := TranscribeStream(filename, files, w, duration);
  }

  /** What the stream for an existing input says: the init and WSL events, the worker's
      output, then exactly one terminal event; a failed worker always ends the stream
      with its exit code; the temp input is deleted after draining and the temp
      transcription only on success. */
  predicate TranscribeStreamed(filename: string, files: set<string>, w: Worker,
                               events: seq<Event>, deleted: seq<string>)
  {
    |events| >= 3
    && events[..2] == [Progress("init", "Starte Transkription f\U{00FC}r: " + DisplayName(filename), 0),
                       Progress("wsl", WslMessage, 10)]
    && events[2..|events| - 1] == OutputEvents(Transcriber, w)
    && (forall k :: 0 <= k < |events| - 1 ==> !IsTerminal(events[k]))
    && TranscribeLast(filename, files, w, events[|events| - 1], deleted)
  }

  /** The final event and the deletions: a failed worker always ends the stream with its
      exit code, and the temp transcription is deleted only on success. */
  predicate TranscribeLast(filename: string, files: set<string>, w: Worker, last: Event, deleted: seq<string>)
  {
    IsTerminal(last)
    && (last.Failure? && last.exitCode.Some? <==> w.exitCode != 0)
    && (last.Complete? <==> w.exitCode == 0 && TranscriptFound(filename, files, w))
    && (last.Complete? ==> last.text == w.resultText && last.mp3Filename == Some(DisplayName(filename)))
    && deleted == (if TranscribeRemovesInput(filename, files, w) then [filename] else [])
         + (if IsTempFile(filename) && last.Complete? then [TranscriptName(filename)] else [])
  }

  /** The stream once the input is known to exist. */
  method TranscribeStream(filename: string, files: set<string>, w: Worker, duration: nat)
    returns (events: seq<Event>, deleted: seq<string>)
    requires filename in files
    ensures TranscribeStreamed(filename, files, w, events, deleted)
    ensures !IsTempFile(filename) ==> deleted == []
  {
    var display := DisplayName(filename);
    var head := [Progress("init", "Starte Transkription f\U{00FC}r: " + display, 0), Progress("wsl", WslMessage, 10)];
    var output := DrainOutput(Transcriber, w);
    OutputNotTerminal(Transcriber, w);
    var last;
    last, deleted := TranscribeFinish(filename, files, w, duration);
    assert TranscribeLast(filename, files, w, last, deleted);
    events := head + output + [last];
    StreamShape(head, output, last);
  }

  /** When the transcription is not the input itself, a temp input is deleted whatever
      the worker's exit code. */
  lemma TranscribeTempInputDeleted(filename: string, files: set<string>, w: Worker)
    requires IsTempFile(filename) && filename in files && TranscriptName(filename) != filename
    ensures TranscribeRemovesInput(filename, files, w)
  {
  }

  /** Body of POST /summarize; absent fields are None. */
  datatype SummarizeRequest = SummarizeRequest(filename: Option<string>, transcription: Option<string>,
                                               mp3Filename: Option<string>)

  /** Python truthiness of an optional string. */
  predicate Truthy(o: Option<string>) { o.Some? && o.value != [] }

  /** A transcription that is not blank is summarised in preference to a file. */
  predicate UsesTranscription(req: SummarizeRequest)
  {
    Truthy(req.transcription) && Strip(req.transcription.value) != []
  }

  /** The temp file the transcription is written to; `hex` stands for the first eight
      hex digits of a random UUID. */
  function TempInputName(req: SummarizeRequest, hex: string): string
  {
    if Truthy(req.mp3Filename) then Sanitize(PathStem(req.mp3Filename.value)) + "_temp.txt"
    else "temp_" + hex + "_transcription.txt"
  }

  /** Whether the worker is started, and on which file. */
  predicate SummarizeStarts(req: SummarizeRequest, files: set<string>)
  {
    UsesTranscription(req) || (Truthy(req.filename) && req.filename.value in files)
  }

  function SummarizeInput(req: SummarizeRequest, hex: string): string
    requires UsesTranscription(req) || Truthy(req.filename)
  {
    if UsesTranscription(req) then TempInputName(req, hex) else req.filename.value
  }

  /** The worker's flag: newsletter mode exactly when the lower-cased base name says so. */
  function ModeFlag(actual: string): string
  {
    if Contains(Lower(actual), "newsletter") then "-newsletter" else "-durchgabe"
  }

  function ModeMessage(flag: string): string
  {
    if flag == "-newsletter" then "Erkannt: Newsletter-Modus" else "Erkannt: Durchgabe-Modus"
  }

  /** Name of the summary the worker writes next to its input. */
  function SummaryName(input: string): string { PathStem(NtBasename(input)) + "_s.txt" }

  /** The end of a summary stream, once the worker has exited; `summary` and `flag`
      are the summary's name and the mode flag derived from the input. */
  method SummarizeFinish(input: string, summary: string, flag: string, temp: bool, files: set<string>,
                         w: Worker, duration: nat)
    returns (last: Event, deleted: seq<string>)
    ensures IsTerminal(last)
    ensures w.exitCode != 0 ==>
      last == Failure(true, "Summarization fehlgeschlagen (Exit-Code: " + IntToString(w.exitCode) + ")",
        Some(w.exitCode))
    ensures w.exitCode == 0 && !SummaryFound(input, summary, temp, files, w) ==>
      last == Failure(true, "Summary-Datei wurde nicht erstellt", None)
    ensures w.exitCode == 0 && SummaryFound(input, summary, temp, files, w) ==>
      last == Complete("Summarization abgeschlossen in " + TenthsToString(duration) + "s",
        w.resultText, summary, None, duration, Some(flag))
    ensures deleted == (if temp && input in AfterWorker(files, summary, w) then [input] else [])
      + (if temp && last.Complete? then [summary] else [])
  {
    var fs := AfterWorker(files, summary, w);
    fs, deleted := Unlink(temp, input, fs);
    if w.exitCode != 0 {
      last := Failure(true, "Summarization fehlgeschlagen (Exit-Code: " + IntToString(w.exitCode) + ")",
        Some(w.exitCode));
      return;
    }
    if summary !in fs {
      last := Failure(true, "Summary-Datei wurde nicht erstellt", None);
      return;
    }
    var text := w.resultText;
    var more;
    fs, more := Unlink(temp, summary, fs);
    deleted := deleted + more;
    last := Complete("Summarization abgeschlossen in " + TenthsToString(duration) + "s",
      text, summary, None, duration, Some(flag));
  }

  /** After a zero exit the summary can be read: the worker left it and it was not the
      temp input just deleted. */
  predicate SummaryFound(input: string, summary: string, temp: bool, files: set<string>, w: Worker)
  {
    summary in AfterWorker(files, summary, w) && !(temp && summary == input)
  }

  /** POST /summarize: 401 raised before streaming, or 200 with the streamed events and
      the files deleted, in order; `input` is the file the worker is given. */
  method Summarize(apiKey: string, header: Option<string>, req: SummarizeRequest, files: set<string>,
                   hex: string, w: Worker, duration: nat)
    returns (status: nat, events: seq<Event>, deleted: seq<string>, input: string)
    ensures status == 401 <==> ApiKeyStatus(apiKey, header).Some?
    ensures status != 401 <==> status == 200
    ensures status != 200 ==> events == [] && deleted == []
    // exactly one terminal event, and it is the last
    ensures status == 200 ==>
      events != [] && IsTerminal(events[|events| - 1]) && forall k :: 0 <= k < |events| - 1 ==> !IsTerminal(events[k])
    // neither input: one error event
    ensures status == 200 && !UsesTranscription(req) && !Truthy(req.filename) ==>
      events == [Failure(false, "Kein Dateiname oder Transkription angegeben", None)] && deleted == []
    ensures status == 200 && (UsesTranscription(req) || Truthy(req.filename)) ==>
      SummarizeStreamed(req, files, hex, w, events, deleted, input)
    ensures !UsesTranscription(req) ==> deleted == []
  {
    events, deleted, input := [], [], "";
    var auth := ApiKeyStatus(apiKey, header);
    if auth.Some? {
      return auth.value, events, deleted, input;
    }
    status := 200;
    if !UsesTranscription(req) && !Truthy(req.filename) {
      events := [Failure(false, "Kein Dateiname oder Transkription angegeben", None)];
      return;
    }
    events, deleted, input := SummarizeStream(req, files, hex, w, duration);
  }

  /** What the stream of a request that names an input says: a missing file is reported
      after the init event; otherwise the worker runs on `input`, and only a temp input
      and its summary are ever deleted. */
  predicate SummarizeStreamed(req: SummarizeRequest, files: set<string>, hex: string, w: Worker,
                              events: seq<Event>, deleted: seq<string>, input: string)
    requires UsesTranscription(req) || Truthy(req.filename)
  {
    input == SummarizeInput(req, hex)
    && (!SummarizeStarts(req, files) ==>
          events == [Progress("init", "Starte Summarization f\U{00FC}r: " + input, 0),
                     Failure(false, "TXT-Datei nicht gefunden: " + input, None)]
          && deleted == [])
    && (SummarizeStarts(req, files) ==> StartedStream(req, files, w, events, deleted, input))
  }

  /** The stream of a request whose input exists: the run on that input, started by the
      request's init event, with a temp input for a transcription. */
  predicate StartedStream(req: SummarizeRequest, files: set<string>, w: Worker,
                          events: seq<Event>, deleted: seq<string>, input: string)
  {
    RunShape(InitEvent(req, input), input, SummaryName(input), ModeFlag(NtBasename(input)),
             UsesTranscription(req), FilesBeforeWorker(req, files, input), w, events, deleted)
  }

  /** A summary run from its init event to the worker's end: the opening events, the
      worker's output, then one terminal event that is a failure with the exit code
      exactly on a non-zero exit, the summary exactly on exit 0 with the summary found,
      and otherwise the missing-summary error; only a temp input and its summary are
      deleted. */
  predicate RunShape(init: Event, input: string, summary: string, flag: string, temp: bool,
                     files: set<string>, w: Worker, events: seq<Event>, deleted: seq<string>)
  {
    |events| >= 4
    && events[..3] == [init, Progress("config", ModeMessage(flag), 5), Progress("wsl", WslMessage, 10)]
    && events[3..|events| - 1] == OutputEvents(Summarizer, w)
    && (events[|events| - 1].Failure? && events[|events| - 1].exitCode.Some? <==> w.exitCode != 0)
    && (events[|events| - 1].Complete? <==> w.exitCode == 0 && SummaryFound(input, summary, temp, files, w))
    && (w.exitCode == 0 && !SummaryFound(input, summary, temp, files, w) ==>
          events[|events| - 1] == Failure(true, "Summary-Datei wurde nicht erstellt", None))
    && (events[|events| - 1].Complete? ==>
          events[|events| - 1].text == w.resultText && events[|events| - 1].filename == summary
          && events[|events| - 1].mode == Some(flag))
    && deleted == (if temp && input in AfterWorker(files, summary, w) then [input] else [])
         + (if temp && events[|events| - 1].Complete? then [summary] else [])
  }

  /** The first event once the input is known. */
  function InitEvent(req: SummarizeRequest, input: string): Event
  {
    if UsesTranscription(req) then Progress("init", "Verwende aktuelle Transkription...", 0)
    else Progress("init", "Starte Summarization f\U{00FC}r: " + input, 0)
  }

  /** The files when the worker starts: a transcription was first written to `input`. */
  function FilesBeforeWorker(req: SummarizeRequest, files: set<string>, input: string): set<string>
  {
    if UsesTranscription(req) then files + {input} else files
  }

  /** The files once the worker has exited. */
  function SummarizeFiles(req: SummarizeRequest, files: set<string>, input: string, w: Worker): set<string>
  {
    AfterWorker(FilesBeforeWorker(req, files, input), SummaryName(input), w)
  }

  /** The stream once the request names an input. */
  method SummarizeStream(req: SummarizeRequest, files: set<string>, hex: string, w: Worker, duration: nat)
    returns (events: seq<Event>, deleted: seq<string>, input: string)
    requires UsesTranscription(req) || Truthy(req.filename)
    ensures events != [] && IsTerminal(events[|events| - 1])
    ensures forall k :: 0 <= k < |events| - 1 ==> !IsTerminal(events[k])
    ensures SummarizeStreamed(req, files, hex, w, events, deleted, input)
    ensures !UsesTranscription(req) ==> deleted == []
  {
    input := SummarizeInput(req, hex);
    var temp := UsesTranscription(req);
    var init := InitEvent(req, input);
    if !temp && input !in files {
      events, deleted := [init, Failure(false, "TXT-Datei nicht gefunden: " + input, None)], [];
      return;
    }
    // a transcription is first written to a fresh temp file
    var fs := FilesBeforeWorker(req, files, input);
    events, deleted := SummarizeRun(init, input, SummaryName(input), ModeFlag(NtBasename(input)), temp, fs, w, duration);
  }

  /** The stream from the point where the input file is known until the worker's end. */
  method SummarizeRun(init: Event, input: string, summary: string, flag: string, temp: bool,
                      files: set<string>, w: Worker, duration: nat)
    returns (events: seq<Event>, deleted: seq<string>)
    requires init.Progress?
    ensures |events| >= 4 && IsTerminal(events[|events| - 1])
    ensures forall k :: 0 <= k < |events| - 1 ==> !IsTerminal(events[k])
    ensures RunShape(init, input, summary, flag, temp, files, w, events, deleted)
  {
    var head := [init, Progress("config", ModeMessage(flag), 5), Progress("wsl", WslMessage, 10)];
    var output := DrainOutput(Summarizer, w);
    OutputNotTerminal(Summarizer, w);
    var last;
    last, deleted := SummarizeFinish(input, summary, flag, temp, files, w, duration);
    events := head + output + [last];
    StreamShape(head, output, last);
  }
}
