// The server's transcription route (server/routes/transcribe.js): the segment lines,
// where the audio file is looked for, and the transcript with its run header.

module TranscribeJs {
  import opened StrUtil
  import Helpers
  import TranscribePy

  // ---------------------------------------------------------------------
  // Segment lines

  /** A Whisper segment as the route reads it: its start in whole seconds, when given,
      and its text. */
  datatype Segment = Segment(start: Option<int>, text: string)

  /** The line of one segment: the bracketed start, a blank, the trimmed text. */
  function SegmentLine(seg: Segment): string
  {
    "[" + Helpers.FormatTimestamp(seg.start) + "] " + Trim(seg.text)
  }

  /** The lines of all segments, in order. */
  function Lines(segments: seq<Segment>): (r: seq<string>)
    ensures |r| == |segments|
  {
    if segments == [] then []
    else Lines(segments[..|segments| - 1]) + [SegmentLine(segments[|segments| - 1])]
  }

  /** Line k is the line of segment k. */
  lemma {:induction false} LinesAt(segments: seq<Segment>, k: nat)
    requires k < |segments|
    ensures Lines(segments)[k] == SegmentLine(segments[k])
    decreases |segments|
  {
    if k < |segments| - 1 {
      LinesAt(segments[..|segments| - 1], k);
    }
  }

  /** formatTranscription: nothing for no segments, otherwise every segment's line
      followed by a line break, in order. */
  method FormatTranscription(segments: seq<Segment>) returns (result: string)
    ensures result == Terminated(Lines(segments))
  {
    if |segments| == 0 {
      return "";
    }
    result := "";
    for k := 0 to |segments|
      invariant result == Terminated(Lines(segments[..k]))
    {
      var segment := segments[k];
      var timestamp := Helpers.FormatTimestamp(segment.start);
      var text := Trim(segment.text);
      assert segments[..k + 1][..k] == segments[..k];
      PushLine(Lines(segments[..k]), SegmentLine(segment));
      result := result + ("[" + timestamp + "] " + text + "\n");
    }
    assert segments[..|segments|] == segments;
  }

  /** With single-line segment texts, the transcription splits into exactly one line
      per segment, in order, and the empty piece after the last line break. */
  lemma TranscriptionLines(segments: seq<Segment>)
    requires forall k :: 0 <= k < |segments| ==> '\n' !in Trim(segments[k].text)
    ensures Split(Terminated(Lines(segments)), '\n') == Lines(segments) + [""]
  {
    LinesUnbroken(segments);
    TerminatedSplit(Lines(segments));
  }

  lemma {:induction false} LinesUnbroken(segments: seq<Segment>)
    requires forall k :: 0 <= k < |segments| ==> '\n' !in Trim(segments[k].text)
    ensures Unbroken(Lines(segments))
    decreases |segments|
  {
    if segments != [] {
      var n := |segments| - 1;
      LinesUnbroken(segments[..n]);
      SegmentLineUnbroken(segments[n]);
      UnbrokenAppend(Lines(segments[..n]), [SegmentLine(segments[n])]);
    }
  }

  lemma SegmentLineUnbroken(seg: Segment)
    requires '\n' !in Trim(seg.text)
    ensures '\n' !in SegmentLine(seg)
  {
    var ts := Helpers.FormatTimestamp(seg.start);
    StampUnbroken(seg.start);
    BracketsUnbroken();
    NoBreakJoined("[", ts);
    NoBreakJoined("[" + ts, "] ");
    NoBreakJoined("[" + ts + "] ", Trim(seg.text));
  }

  lemma BracketsUnbroken()
    ensures '\n' !in "[" && '\n' !in "] "
  {
  }

  lemma StampUnbroken(start: Option<int>)
    ensures '\n' !in Helpers.FormatTimestamp(start)
  {
    if start.Some? && start.value > 0 {
      var n: nat := start.value;
      ClockUnbroken(n, n / 3600, n % 3600 / 60, n % 60);
    }
  }

  lemma ClockUnbroken(n: nat, h: nat, m: nat, s: nat)
    requires h == n / 3600 && m == n % 3600 / 60 && s == n % 60
    ensures '\n' !in Helpers.Clock(n)
  {
    DigitsUnbroken(PadNat(h, 2));
    DigitsUnbroken(PadNat(m, 2));
    DigitsUnbroken(PadNat(s, 2));
  }

  /** The client's extractTimestamps reads every line back: the stamp, its seconds (0
      for a missing or non-positive start) and the trimmed text, provided the start is
      below 100 hours and the text is one non-empty line. */
  lemma LineReadBack(seg: Segment, n: nat)
    requires n == (if seg.start.Some? && seg.start.value > 0 then seg.start.value else 0)
    requires n < TranscribePy.HundredHours
    requires Trim(seg.text) != [] && Helpers.NoLineTerm(Trim(seg.text))
    ensures Helpers.ExtractLine(SegmentLine(seg))
      == Some(Helpers.Entry(Helpers.Clock(n), Num(n), Trim(seg.text)))
  {
    var t := Trim(seg.text);
    TrimmedHead(seg.text);
    if n == 0 {
      ClockZero();
    }
    assert Helpers.FormatTimestamp(seg.start) == Helpers.Clock(n);
    TranscribePy.StampedLineReadBack(n, t);
  }

  lemma ClockZero()
    ensures Helpers.Clock(0) == "00:00:00"
  {
    assert PadNat(0, 2) == "00";
  }

  /** A trimmed text does not start with white space. */
  lemma TrimmedHead(s: string)
    requires Trim(s) != []
    ensures !White(JsSpace, Trim(s)[0])
  {
    var u := TrimStart(s, JsSpace);
    TrimStartStops(s, JsSpace);
    assert Trim(s)[0] == u[0];
  }

  // ---------------------------------------------------------------------
  // The audio file

  /** Where the route looks for the audio: a path used as given, or a bare file name in
      the upload directory (joined with `path.join`). */
  datatype AudioPath = Given(path: string) | Uploaded(dir: string, name: string)

  /** `process.env.X || fallback` */
  function EnvOr(env: Option<string>, fallback: string): string
  {
    if env.None? || env.value == "" then fallback else env.value
  }

  /** An absolute path (`path.isAbsolute` with the Windows rules the server runs under) is
      used as it is; any other is reduced to its base name under the upload directory,
      './uploads' unless UPLOAD_DIR says otherwise. */
  function ResolvePath(filePath: string, uploadDir: Option<string>): (r: AudioPath)
  {
    if NodeIsAbsolute(filePath) then Given(filePath)
    else Uploaded(EnvOr(uploadDir, "./uploads"), NodeBasename(filePath))
  }

  /** A relative path cannot name a sub-directory of the upload directory, nor one
      outside it by way of a separator: only its last component is kept. */
  lemma ResolvePathCases(filePath: string, uploadDir: Option<string>)
    ensures NodeIsAbsolute(filePath) <==> ResolvePath(filePath, uploadDir).Given?
    ensures ResolvePath(filePath, uploadDir).Given? ==> ResolvePath(filePath, uploadDir).path == filePath
    ensures ResolvePath(filePath, uploadDir).Uploaded? ==>
      (forall i :: 0 <= i < |ResolvePath(filePath, uploadDir).name| ==> !WinSep(ResolvePath(filePath, uploadDir).name[i]))
      && ResolvePath(filePath, uploadDir).dir
         == (if uploadDir.None? || uploadDir.value == "" then "./uploads" else uploadDir.value)
  {
  }

  /** A local file picked in the browser arrives as a drive path with backslashes, and is
      used as it is; a bare file name is looked up in the upload directory. */
  lemma DrivePathGiven(drive: char, rest: string, uploadDir: Option<string>)
    requires 'A' <= drive <= 'Z'
    ensures ResolvePath([drive, ':', '\\'] + rest, uploadDir) == Given([drive, ':', '\\'] + rest)
  {
  }

  /** A name without separators is looked up under that name in the upload directory. */
  lemma PlainNameUploaded(name: string, uploadDir: Option<string>)
    requires PlainName(name)
    ensures ResolvePath(name, uploadDir) == Uploaded(EnvOr(uploadDir, "./uploads"), name)
  {
    PlainBasename(name);
  }

  // ---------------------------------------------------------------------
  // The route

  /** The Whisper call: the segments and the audio duration it reports, or the message
      of the error it threw. */
  datatype WhisperResult = Recognized(segments: seq<Segment>, duration: int) | Failed(message: string)

  /** The answer of the route. */
  datatype Reply = BadRequest(error: string) | NotFound(error: string) | ServerError(error: string)
                 | Transcribed(transcription: string, segments: seq<Segment>, audioDuration: int)

  /** The run header's fields: date, start clock, elapsed time and model. */
  function RunHeader(date: string, start: string, seconds: int, model: string): seq<string>
  {
    ["Datum:   " + date, "Start:   " + start, "Dauer:   " + Helpers.FormatTimestamp(Some(seconds)),
     "Modell:  " + model]
  }

  /** The header text: the fields joined by line breaks, followed by two empty pieces so
      that one blank line separates it from the segment lines. */
  function Header(date: string, start: string, seconds: int, model: string): string
  {
    Join(RunHeader(date, start, seconds, model) + ["", ""], "\n")
  }

  /** What the route answers, in the order the handler decides it. */
  function Outcome(filePath: Option<string>, uploadDir: Option<string>, present: AudioPath -> bool,
                   endpoint: Option<string>, api: AudioPath -> WhisperResult, date: string,
                   start: string, seconds: int, modelEnv: Option<string>): Reply
  {
    if filePath.None? || filePath.value == "" then BadRequest("Kein Dateipfad angegeben")
    else
      var full := ResolvePath(filePath.value, uploadDir);
      if !present(full) then NotFound("Audio-Datei nicht gefunden")
      else if endpoint.None? || endpoint.value == "" then
        ServerError("RUNPOD_WHISPER_ENDPOINT nicht konfiguriert")
      else match api(full)
        case Failed(m) => ServerError("Transkription fehlgeschlagen: " + m)
        case Recognized(segments, duration) =>
          var model := EnvOr(modelEnv, "openai/whisper-large-v3");
          Transcribed(Header(date, start, seconds, model) + Terminated(Lines(segments)), segments, duration)
  }

  /** POST /api/transcribe. */
  method Transcribe(filePath: Option<string>, uploadDir: Option<string>, present: AudioPath -> bool,
                    endpoint: Option<string>, api: AudioPath -> WhisperResult, date: string,
                    start: string, seconds: int, modelEnv: Option<string>)
    returns (reply: Reply)
    ensures reply == Outcome(filePath, uploadDir, present, endpoint, api, date, start, seconds,
                             modelEnv)
  {
    if filePath.None? || filePath.value == "" {
      return BadRequest("Kein Dateipfad angegeben");
    }
    var fullPath := ResolvePath(filePath.value, uploadDir);
    if !present(fullPath) {
      return NotFound("Audio-Datei nicht gefunden");
    }
    if endpoint.None? || endpoint.value == "" {
      return ServerError("RUNPOD_WHISPER_ENDPOINT nicht konfiguriert");
    }
    var result := api(fullPath);
    if result.Failed? {
      return ServerError("Transkription fehlgeschlagen: " + result.message);
    }
    var transcription := FormatTranscription(result.segments);
    var header := Header(date, start, seconds, EnvOr(modelEnv, "openai/whisper-large-v3"));
    reply := Transcribed(header + transcription, result.segments, result.duration);
  }

  /** A missing path and a missing file are answered before the Whisper call: the
      answer does not depend on it. */
  lemma RejectedBeforeCall(filePath: Option<string>, uploadDir: Option<string>,
                           present: AudioPath -> bool, endpoint: Option<string>,
                           api1: AudioPath -> WhisperResult, api2: AudioPath -> WhisperResult,
                           date: string, start: string, seconds: int, modelEnv: Option<string>)
    requires filePath.None? || filePath.value == "" || !present(ResolvePath(filePath.value, uploadDir))
    ensures Outcome(filePath, uploadDir, present, endpoint, api1, date, start, seconds, modelEnv)
      == Outcome(filePath, uploadDir, present, endpoint, api2, date, start, seconds, modelEnv)
    ensures filePath.None? || filePath.value == "" ==>
      Outcome(filePath, uploadDir, present, endpoint, api1, date, start, seconds, modelEnv)
        == BadRequest("Kein Dateipfad angegeben")
    ensures filePath.Some? && filePath.value != "" ==>
      Outcome(filePath, uploadDir, present, endpoint, api1, date, start, seconds, modelEnv)
        == NotFound("Audio-Datei nicht gefunden")
  {
  }

  /** The transcript read line by line: the four header lines, one blank line, then one
      line per segment, and the empty piece after the final line break. */
  lemma TranscriptLines(date: string, start: string, seconds: int, model: string,
                        segments: seq<Segment>)
    requires '\n' !in date && '\n' !in start && '\n' !in model
    requires forall k :: 0 <= k < |segments| ==> '\n' !in Trim(segments[k].text)
    ensures Split(Header(date, start, seconds, model) + Terminated(Lines(segments)), '\n')
      == RunHeader(date, start, seconds, model) + [""] + Lines(segments) + [""]
  {
    HeaderUnbroken(date, start, seconds, model);
    LinesUnbroken(segments);
    HeadThenLines(RunHeader(date, start, seconds, model), Lines(segments));
  }

  /** A terminated block of lines after a joined head ending in two empty pieces splits
      into the head, one empty line, the lines and the final empty piece. */
  lemma HeadThenLines(head: seq<string>, lines: seq<string>)
    requires Unbroken(head) && Unbroken(lines)
    ensures Split(Join(head + ["", ""], "\n") + Terminated(lines), '\n') == head + [""] + lines + [""]
  {
    var h := head + [""];
    assert head + ["", ""] == h + [""];
    TerminatedJoin(h);
    TerminatedAppend(h, lines);
    UnbrokenAppend(head, [""]);
    UnbrokenAppend(h, lines);
    TerminatedSplit(h + lines);
  }

  lemma HeaderUnbroken(date: string, start: string, seconds: int, model: string)
    requires '\n' !in date && '\n' !in start && '\n' !in model
    ensures Unbroken(RunHeader(date, start, seconds, model))
  {
    TranscribePy.DatumUnbroken();
    TranscribePy.StartUnbroken();
    TranscribePy.DauerUnbroken();
    TranscribePy.ModellUnbroken();
    StampUnbroken(Some(seconds));
    NoBreakJoined("Datum:   ", date);
    NoBreakJoined("Start:   ", start);
    NoBreakJoined("Dauer:   ", Helpers.FormatTimestamp(Some(seconds)));
    NoBreakJoined("Modell:  ", model);
    UnbrokenFour("Datum:   " + date, "Start:   " + start,
                 "Dauer:   " + Helpers.FormatTimestamp(Some(seconds)), "Modell:  " + model);
  }

  lemma UnbrokenFour(a0: string, a1: string, a2: string, a3: string)
    requires '\n' !in a0 && '\n' !in a1 && '\n' !in a2 && '\n' !in a3
    ensures Unbroken([a0, a1, a2, a3])
  {
  }
}
