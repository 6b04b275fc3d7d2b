// POST /api/transcribe-local (server/routes/transcribe-local.js): the checks on the
// request, the events before the worker starts, and what the close handler does with
// the worker's outcome, as an ordered log of actions.

module TranscribeLocal {
  import opened StrUtil
  import LocalService
  import TranscribePy
  import opened WslRoute

  /** The request body; absent fields are None. */
  datatype Request = Request(filename: Option<string>, socketId: Option<string>)

  /** The HTTP answer; `expectedPath` and `filename` are names in the audio directory,
      `duration` the elapsed seconds as printed with one decimal. */
  datatype Response =
    | BadRequest(error: string)
    | NotFound(error: string)
    | ExitFailed(exitCode: Option<int>, stderr: string, stdout: string)
    | TranscriptMissing(expectedPath: string)
    | SpawnFailed(details: string)
    | Transcribed(filename: string, mp3Filename: string, transcription: string, duration: string,
                  outputLines: nat)

  function Status(r: Response): int
  {
    match r
    case BadRequest(_) => 400
    case NotFound(_) => 404
    case Transcribed(_, _, _, _, _) => 200
    case _ => 500
  }

  /** The checks made before anything is sent or started, in the handler's order; None
      when the worker is started. `dir` holds the names in the audio directory. */
  function Check(req: Request, dir: set<string>): Option<Response>
  {
    if !LocalService.Truthy(req.filename) then Some(BadRequest("Kein Dateiname angegeben"))
    else if !LocalService.Truthy(req.socketId) then Some(BadRequest("Keine Socket-ID angegeben"))
    else if req.filename.value !in dir then Some(NotFound("MP3-Datei nicht gefunden: " + req.filename.value))
    else None
  }

  /** The events sent before the worker is spawned. */
  function StartActions(filename: string): seq<Action>
  {
    [Send("init", "Starte Transkription f\U{00FC}r: " + filename, 0),
     Send("wsl", "Starte WSL2 und Python-Environment...", 10)]
  }

  /** The transcript the route as written looks for:
      `path.basename(filename, '.mp3') + '.txt'`, which strips only the lower-case
      extension. */
  function ResultName(filename: string): string
  {
    BasenameWithout(filename, ".mp3") + ".txt"
  }

  /** The name the close handler looks the transcript up under: the route's own
      (`ResultName`), or the worker's (`IntendedResultName`, the correction). */
  datatype Naming = AsWritten | Corrected

  function ResultFile(naming: Naming, filename: string): string
  {
    match naming
    case AsWritten => ResultName(filename)
    case Corrected => IntendedResultName(filename)
  }

  /** What the close (or error) handler does: its actions and the answer. */
  datatype Ending = Ending(log: seq<Action>, response: Response)

  /** The close and error handlers; `result` is the transcript's name. */
  function Finish(filename: string, w: Worker, duration: string, result: string): Ending
  {
    match w.exit
    case SpawnError(m) => Ending([Send("error", "WSL-Fehler: " + m, 0)], SpawnFailed(m))
    case Closed(code) => AfterExit(filename, w, code, duration, result)
  }

  function AfterExit(filename: string, w: Worker, code: Option<int>, duration: string, result: string): Ending
  {
    if code != Some(0) then
      Ending([Send("error", "Transkription fehlgeschlagen (Exit-Code: " + CodeText(code) + ")", 0)],
             ExitFailed(code, ErrText(w.chunks), OutText(w.chunks)))
    else if result !in w.after then
      Ending([Send("loading", "Lade Transkriptionsdatei...", 98),
              Send("error", "Transkriptionsdatei wurde nicht erstellt", 0)],
             TranscriptMissing(result))
    else
      Ending([Send("loading", "Lade Transkriptionsdatei...", 98),
              Send("complete", "Transkription abgeschlossen in " + duration + "s", 100),
              Deliver(w.output, result, Some(filename))],
             Transcribed(result, filename, w.output, duration, |Split(OutText(w.chunks), '\n')|))
  }

  /** The whole request, with the transcript looked up as `naming` says. */
  function Run(req: Request, dir: set<string>, w: Worker, duration: string, naming: Naming): Ending
  {
    match Check(req, dir)
    case Some(r) => Ending([], r)
    case None =>
      var f := req.filename.value;
      var e := Finish(f, w, duration, ResultFile(naming, f));
      Ending(StartActions(f) + StreamActions(TranscribeRoute, w.chunks) + e.log, e.response)
  }

  /** The close and error handlers, looking for the transcript under the name `naming`
      gives it: `AsWritten` is the route as it stands. */
  method Close(filename: string, w: Worker, duration: string, naming: Naming, outputBuffer: string,
               errorBuffer: string)
    returns (ending: Ending)
    requires outputBuffer == OutText(w.chunks) && errorBuffer == ErrText(w.chunks)
    ensures ending == Finish(filename, w, duration, ResultFile(naming, filename))
  {
    if w.exit.SpawnError? {
      return Ending([Send("error", "WSL-Fehler: " + w.exit.message, 0)], SpawnFailed(w.exit.message));
    }
    var code := w.exit.code;
    if code != Some(0) {
      return Ending([Send("error", "Transkription fehlgeschlagen (Exit-Code: " + CodeText(code) + ")", 0)],
                    ExitFailed(code, errorBuffer, outputBuffer));
    }
    var loading := Send("loading", "Lade Transkriptionsdatei...", 98);
    var txtPath := ResultFile(naming, filename);
    if txtPath !in w.after {
      return Ending([loading, Send("error", "Transkriptionsdatei wurde nicht erstellt", 0)], TranscriptMissing(txtPath));
    }
    var transcription := w.output;
    ending := Ending([loading, Send("complete", "Transkription abgeschlossen in " + duration + "s", 100),
                      Deliver(transcription, txtPath, Some(filename))],
                     Transcribed(txtPath, filename, transcription, duration, |Split(outputBuffer, '\n')|));
  }

  /** POST /api/transcribe-local; `AsWritten` for `naming` is the route as it stands. */
  method Transcribe(req: Request, dir: set<string>, w: Worker, duration: string, naming: Naming)
    returns (ending: Ending)
    ensures ending == Run(req, dir, w, duration, naming)
  {
    if req.filename.None? || req.filename.value == "" {
      return Ending([], BadRequest("Kein Dateiname angegeben"));
    }
    if req.socketId.None? || req.socketId.value == "" {
      return Ending([], BadRequest("Keine Socket-ID angegeben"));
    }
    var filename := req.filename.value;
    if filename !in dir {
      return Ending([], NotFound("MP3-Datei nicht gefunden: " + filename));
    }
    var log := StartActions(filename);
    var streamed, outputBuffer, errorBuffer := Drain(TranscribeRoute, w.chunks);
    var e := Close(filename, w, duration, naming, outputBuffer, errorBuffer);
    ending := Ending(log + streamed + e.log, e.response);
  }

  // ---------------------------------------------------------------------
  // Properties

  /** The three checks come in a fixed order, all before anything is sent or started: a
      missing file name is reported even when the socket id is missing too, and a missing
      socket id even when the file does not exist. */
  lemma ValidationOrder(req: Request, dir: set<string>, w: Worker, duration: string, naming: Naming)
    ensures Check(req, dir).None? <==>
      LocalService.Truthy(req.filename) && LocalService.Truthy(req.socketId) && req.filename.value in dir
    ensures !LocalService.Truthy(req.filename) ==>
      Run(req, dir, w, duration, naming) == Ending([], BadRequest("Kein Dateiname angegeben"))
    ensures LocalService.Truthy(req.filename) && !LocalService.Truthy(req.socketId) ==>
      Run(req, dir, w, duration, naming) == Ending([], BadRequest("Keine Socket-ID angegeben"))
    ensures Check(req, dir).Some? ==>
      Run(req, dir, w, duration, naming).log == [] && Status(Run(req, dir, w, duration, naming).response) in {400, 404}
      && (Status(Run(req, dir, w, duration, naming).response) == 404 <==>
            LocalService.Truthy(req.filename) && LocalService.Truthy(req.socketId))
  {
  }

  /** The route never writes or deletes a file: its log holds socket events only. */
  lemma NeverTouchesFiles(req: Request, dir: set<string>, w: Worker, duration: string, naming: Naming)
    ensures forall k :: 0 <= k < |Run(req, dir, w, duration, naming).log| ==> IsEvent(Run(req, dir, w, duration, naming).log[k])
  {
    if Check(req, dir).None? {
      var f := req.filename.value;
      var s := StreamActions(TranscribeRoute, w.chunks);
      var e := Finish(f, w, duration, ResultFile(naming, f));
      StreamActionsStreaming(TranscribeRoute, w.chunks);
      FinishEvents(f, w, duration, ResultFile(naming, f));
      EventsJoin(StartActions(f), s);
      EventsJoin(StartActions(f) + s, e.log);
    }
  }

  lemma FinishEvents(filename: string, w: Worker, duration: string, result: string)
    ensures forall k :: 0 <= k < |Finish(filename, w, duration, result).log| ==>
      IsEvent(Finish(filename, w, duration, result).log[k])
  {
  }

  lemma EventsJoin(a: seq<Action>, b: seq<Action>)
    requires forall k :: 0 <= k < |a| ==> IsEvent(a[k])
    requires forall k :: 0 <= k < |b| ==> IsEvent(b[k])
    ensures forall k :: 0 <= k < |a + b| ==> IsEvent((a + b)[k])
  {
    forall k | 0 <= k < |a + b| ensures IsEvent((a + b)[k]) {
      if k < |a| { assert (a + b)[k] == a[k]; } else { assert (a + b)[k] == b[k - |a|]; }
    }
  }

  /** The close handler succeeds exactly when the worker exited with code 0 and the
      transcript exists; then the client receives that transcript under its name, with the
      MP3 name it was made from. */
  lemma CloseOutcome(filename: string, w: Worker, duration: string, result: string)
    ensures Status(Finish(filename, w, duration, result).response) == 200 <==>
      w.exit == Closed(Some(0)) && result in w.after
    ensures Status(Finish(filename, w, duration, result).response) == 200 ==>
      var e := Finish(filename, w, duration, result);
      e.response.filename == result && e.response.mp3Filename == filename && e.response.transcription == w.output
      && e.log[|e.log| - 1] == Deliver(w.output, result, Some(filename))
    ensures w.exit.Closed? && w.exit.code != Some(0) ==>
      Finish(filename, w, duration, result).response == ExitFailed(w.exit.code, ErrText(w.chunks), OutText(w.chunks))
  {
  }

  /** Every request that starts the worker ends with exactly one terminal event, the
      last the client sees; the answer is 200 exactly when that event is the result. */
  lemma OneTerminalEvent(req: Request, dir: set<string>, w: Worker, duration: string, naming: Naming)
    requires Check(req, dir).None?
    ensures Concludes(Run(req, dir, w, duration, naming).log, Status(Run(req, dir, w, duration, naming).response) == 200)
  {
    var f := req.filename.value;
    var before := StartActions(f);
    var stream := StreamActions(TranscribeRoute, w.chunks);
    var e := Finish(f, w, duration, ResultFile(naming, f));
    assert NoTerminal(before);
    StreamNoTerminal(TranscribeRoute, w.chunks);
    NoTerminalJoin(before, stream);
    FinishConcludes(f, w, duration, ResultFile(naming, f));
    ConcludesAfterRun(before + stream, e.log, Status(e.response) == 200);
  }

  lemma FinishConcludes(filename: string, w: Worker, duration: string, result: string)
    ensures var e := Finish(filename, w, duration, result); Concludes(e.log, Status(e.response) == 200)
  {
    match w.exit
    case SpawnError(m) =>
      ConcludesOne(Send("error", "WSL-Fehler: " + m, 0));
    case Closed(code) =>
      var loading := Send("loading", "Lade Transkriptionsdatei...", 98);
      if code != Some(0) {
        ConcludesOne(Send("error", "Transkription fehlgeschlagen (Exit-Code: " + CodeText(code) + ")", 0));
      } else if result !in w.after {
        FailsAfterProgress(loading, Send("error", "Transkriptionsdatei wurde nicht erstellt", 0));
      } else {
        DeliversAfterProgress(loading, Send("complete", "Transkription abgeschlossen in " + duration + "s", 100),
                              Deliver(w.output, result, Some(filename)));
      }
  }

  lemma FailsAfterProgress(a: Action, x: Action)
    requires a.Send? && a.step != "error" && x.Send? && x.step == "error"
    ensures Concludes([a, x], false)
  {
    ConcludesOne(x);
    ConcludesAfterProgress(a, [x], false);
    assert [a] + [x] == [a, x];
  }

  lemma DeliversAfterProgress(a: Action, b: Action, x: Action)
    requires a.Send? && a.step != "error" && b.Send? && b.step != "error" && x.Deliver?
    ensures Concludes([a, b, x], true)
  {
    ConcludesOne(x);
    ConcludesAfterProgress(b, [x], true);
    ConcludesAfterProgress(a, [b] + [x], true);
    assert [a] + ([b] + [x]) == [a, b, x];
  }

  // ---------------------------------------------------------------------
  // The transcript's name

  /** A name of safe characters with no dot, followed by an extension. */
  predicate Plain(stem: string)
  {
    stem != [] && forall k :: 0 <= k < |stem| ==> LocalService.SafeChar(stem[k]) && stem[k] != '.'
  }

  /** ".mp3" in any mix of cases. */
  predicate Mp3Ext(ext: string)
  {
    |ext| == 4 && ext[0] == '.' && Lower(ext[1..]) == "mp3"
  }

  /** The route finds "stem.txt" for "stem.mp3", but strips only the lower-case
      extension: for any other spelling it looks for the MP3 name with ".txt" added. */
  lemma ResultNameCaseSensitive(stem: string, ext: string)
    requires Plain(stem) && Mp3Ext(ext)
    ensures ResultName(stem + ext) == if ext == ".mp3" then stem + ".txt" else stem + ext + ".txt"
  {
    var p := stem + ext;
    PlainMp3Name(stem, ext);
    assert p[..|stem|] == stem && p[|stem|..] == ext;
    StripEnding(p, stem, ".mp3");
  }

  /** `path.basename(p, s)` of a plain name `p` longer than `s` removes the end of `p`
      exactly when it is `s`. */
  lemma StripEnding(p: string, stem: string, s: string)
    requires stem != [] && |p| == |stem| + |s| && p[..|stem|] == stem && NodeBasename(p) == p
    ensures BasenameWithout(p, s) == if p[|stem|..] == s then stem else p
  {
    assert |p| - |s| == |stem|;
  }

  /** Finding, as written: for "stem.MP3" (or any spelling other than ".mp3") the worker,
      which accepts the name in any case, writes "stem.txt", and the route looks for
      another name and reports the transcript missing. */
  lemma ResultNameMissesOtherCase(stem: string, ext: string)
    requires Plain(stem) && Mp3Ext(ext) && ext != ".mp3"
    ensures TranscribePy.OutputName(stem + ext) == stem + ".txt"
    ensures ResultName(stem + ext) == stem + ext + ".txt" != stem + ".txt"
  {
    ResultNameCaseSensitive(stem, ext);
    WorkerName(stem, ext);
    assert |stem + ext + ".txt"| != |stem + ".txt"|;
  }

  /** The evidently intended name: the extension stripped whatever its case. */
  function IntendedResultName(filename: string): string
  {
    var b := NodeBasename(filename);
    (if |b| > 4 && Lower(b[|b| - 4..]) == ".mp3" then b[..|b| - 4] else b) + ".txt"
  }

  /** The intended name is the one the worker writes for every spelling of ".mp3", and
      agrees with the route's for the lower-case one. */
  lemma IntendedResultNameMatchesWorker(stem: string, ext: string)
    requires Plain(stem) && Mp3Ext(ext)
    ensures IntendedResultName(stem + ext) == TranscribePy.OutputName(stem + ext) == stem + ".txt"
    ensures ext == ".mp3" ==> IntendedResultName(stem + ext) == ResultName(stem + ext)
  {
    var p := stem + ext;
    PlainMp3Name(stem, ext);
    Mp3Lower(ext);
    assert p[..|stem|] == stem && p[|stem|..] == ext;
    IntendedOf(p, stem);
    WorkerName(stem, ext);
    if ext == ".mp3" {
      ResultNameCaseSensitive(stem, ext);
    }
  }

  /** Every spelling of ".mp3" lower-cases to ".mp3". */
  lemma Mp3Lower(ext: string)
    requires Mp3Ext(ext)
    ensures Lower(ext) == ".mp3"
  {
    LowerConcat(".", ext[1..]);
    assert ext == "." + ext[1..];
  }

  /** The corrected name of a plain name whose last four characters lower-case to
      ".mp3" is the name without them, with ".txt". */
  lemma IntendedOf(p: string, stem: string)
    requires stem != [] && |p| == |stem| + 4 && p[..|stem|] == stem && NodeBasename(p) == p
    requires Lower(p[|stem|..]) == ".mp3"
    ensures IntendedResultName(p) == stem + ".txt"
  {
    assert |p| - 4 == |stem|;
  }

  /** With the corrected name, a worker that exits with 0 after writing its transcript
      is answered with that transcript, whatever the case of the MP3 extension. */
  lemma WorkerTranscriptDelivered(req: Request, dir: set<string>, w: Worker, duration: string,
                                  stem: string, ext: string)
    requires Check(req, dir).None? && req.filename.value == stem + ext
    requires Plain(stem) && Mp3Ext(ext)
    requires w.exit == Closed(Some(0)) && TranscribePy.OutputName(stem + ext) in w.after
    ensures Run(req, dir, w, duration, Corrected).response.Transcribed?
    ensures Run(req, dir, w, duration, Corrected).response.filename == stem + ".txt"
    ensures Run(req, dir, w, duration, Corrected).response.transcription == w.output
  {
    IntendedResultNameMatchesWorker(stem, ext);
  }

  /** Finding, at the level of the route as written: the same successful run of the
      worker on "stem.MP3" is answered 500 with "stem.MP3.txt" as the missing transcript,
      unless a file of that name happens to exist. */
  lemma UpperCaseTranscriptMissing(req: Request, dir: set<string>, w: Worker, duration: string,
                                   stem: string, ext: string)
    requires Check(req, dir).None? && req.filename.value == stem + ext
    requires Plain(stem) && Mp3Ext(ext) && ext != ".mp3"
    requires w.exit == Closed(Some(0)) && TranscribePy.OutputName(stem + ext) in w.after
    requires stem + ext + ".txt" !in w.after
    ensures Run(req, dir, w, duration, AsWritten).response == TranscriptMissing(stem + ext + ".txt")
    ensures Status(Run(req, dir, w, duration, AsWritten).response) == 500
  {
    ResultNameCaseSensitive(stem, ext);
    RunMissing(req, dir, w, duration, AsWritten);
  }

  /** A worker that exits with 0 without the transcript the route looks for is answered
      500 with that name. */
  lemma RunMissing(req: Request, dir: set<string>, w: Worker, duration: string, naming: Naming)
    requires Check(req, dir).None? && w.exit == Closed(Some(0))
    requires ResultFile(naming, req.filename.value) !in w.after
    ensures Run(req, dir, w, duration, naming).response == TranscriptMissing(ResultFile(naming, req.filename.value))
  {
  }

  /** A plain name with an MP3 extension is its own base name. */
  lemma PlainMp3Name(stem: string, ext: string)
    requires Plain(stem) && Mp3Ext(ext)
    ensures NodeBasename(stem + ext) == stem + ext
    ensures forall k :: |stem| < k < |stem + ext| ==> (stem + ext)[k] != '.' && (stem + ext)[k] != '/'
  {
    var p := stem + ext;
    Mp3Chars(ext);
    forall k | 0 <= k < |p| ensures LocalService.SafeChar(p[k]) {
      if k < |stem| { assert p[k] == stem[k]; } else { assert p[k] == ext[k - |stem|]; }
    }
    forall k | |stem| < k < |p| ensures p[k] != '.' && p[k] != '/' {
      assert p[k] == ext[k - |stem|];
    }
    assert PlainName(p) by {
      if |p| >= 2 { assert LocalService.SafeChar(p[1]); }
    }
    PlainBasename(p);
  }

  /** Each character of an MP3 extension is safe, and only the first is a dot. */
  lemma Mp3Chars(ext: string)
    requires Mp3Ext(ext)
    ensures forall k :: 0 <= k < 4 ==> LocalService.SafeChar(ext[k])
    ensures forall k :: 1 <= k < 4 ==> ext[k] != '.' && ext[k] != '/'
  {
    forall k | 1 <= k < 4 ensures LocalService.SafeChar(ext[k]) && ext[k] != '.' && ext[k] != '/' {
      LowerIndex(ext[1..], k - 1);
      assert LowerChar(ext[k]) == "mp3"[k - 1];
    }
  }

  /** The worker names the transcript after the MP3 name without its last extension. */
  lemma WorkerName(stem: string, ext: string)
    requires Plain(stem) && Mp3Ext(ext)
    ensures TranscribePy.OutputName(stem + ext) == stem + ".txt"
  {
    var p := stem + ext;
    PlainMp3Name(stem, ext);
    LastIndexOfIs(p, |stem|, '.');
    assert '/' !in p by {
      forall k | 0 <= k < |p| ensures p[k] != '/' {
        if k < |stem| { assert p[k] == stem[k]; }
      }
    }
    LastIndexOfAbsent(p, '/');
    assert p[0] == stem[0] && p[0] != '.';
    assert p[..|stem|] == stem;
  }
}
