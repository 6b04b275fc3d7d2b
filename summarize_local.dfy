// POST /api/summarize-local (server/routes/summarize-local.js): the checks on the
// request, the choice of input file, the mode flag, and what the close handler does
// with the worker's outcome, as an ordered log of actions.

module SummarizeLocal {
  import opened StrUtil
  import LocalService
  import opened WslRoute

  /** The request body; absent fields are None. */
  datatype Request = Request(filename: Option<string>, transcription: Option<string>,
                             socketId: Option<string>)

  /** The HTTP answer. */
  datatype Response =
    | BadRequest(error: string)
    | NotFound(error: string)
    | ExitFailed(exitCode: Option<int>, stderr: string, stdout: string)
    | SummaryMissing(expectedPath: string)
    | SpawnFailed(details: string)
    | Summarized(filename: string, transcription: string, outputLines: nat, mode: string,
                 usedTemporaryFile: bool)

  function Status(r: Response): int
  {
    match r
    case BadRequest(_) => 400
    case NotFound(_) => 404
    case Summarized(_, _, _, _, _) => 200
    case _ => 500
  }

  /** How far the request gets before the worker: answered at once, or started on
      `input` (a temp file holding the transcription when `temp`). */
  datatype Start = Stop(log: seq<Action>, response: Response) | Go(log: seq<Action>, input: string, temp: bool)

  /** `transcription && transcription.trim()` */
  predicate UsesTranscription(req: Request)
  {
    LocalService.Truthy(req.transcription) && Trim(req.transcription.value) != ""
  }

  /** The temp file's name; `now` is the clock in milliseconds. */
  function TempName(now: nat): string
  {
    "temp_" + NatToString(now) + "_transcription.txt"
  }

  /** The request checks and the input choice; `dir` holds the names in the audio
      directory. */
  function Prepare(req: Request, dir: set<string>, now: nat): Start
  {
    if !LocalService.Truthy(req.socketId) then Stop([], BadRequest("Keine Socket-ID angegeben"))
    else if UsesTranscription(req) then
      Go([Send("init", "Verwende aktuelle Transkription...", 0), Write(TempName(now)),
          Send("init", "Tempor\U{00E4}re Datei erstellt: " + TempName(now), 5)], TempName(now), true)
    else if LocalService.Truthy(req.filename) then
      var started := [Send("init", "Starte Summarization f\U{00FC}r: " + req.filename.value, 0)];
      if req.filename.value in dir then Go(started, req.filename.value, false)
      else Stop(started, NotFound("TXT-Datei nicht gefunden: " + req.filename.value))
    else Stop([], BadRequest("Kein Dateiname oder Transkription angegeben"))
  }

  /** The events between the input choice and the worker's start. */
  function ConfigActions(input: string): seq<Action>
  {
    [Send("config", LocalService.ModeMessage(Flag(input)), 5),
     Send("wsl", "Starte WSL2 und Python-Environment...", 10)]
  }

  /** The mode flag passed to the worker for `input`. */
  function Flag(input: string): string
  {
    LocalService.ModeFlag(NodeBasename(input))
  }

  /** The summary the worker writes for `input`. */
  function SummaryFile(input: string): string
  {
    BasenameWithout(NodeBasename(input), ".txt") + "_s.txt"
  }

  /** What the close (or error) handler does: its actions, the answer, and the names left
      in the audio directory. */
  datatype Ending = Ending(log: seq<Action>, response: Response, left: set<string>)

  function Finish(input: string, temp: bool, w: Worker, duration: string, summary: string, flag: string): Ending
  {
    var c := RemoveTemp(input, temp, w.after);
    match w.exit
    case SpawnError(m) => Ending([Send("error", "WSL-Fehler: " + m, 0)] + c.log, SpawnFailed(m), c.left)
    case Closed(code) =>
      var e := AfterExit(temp, w, code, duration, c.left, summary, flag);
      Ending(c.log + e.log, e.response, e.left)
  }

  /** The temp input is deleted when one was used and is still there. */
  function RemoveTemp(input: string, temp: bool, files: set<string>): (r: Ending)
  {
    if temp && input in files then Ending([Unlink(input)], SpawnFailed(""), files - {input})
    else Ending([], SpawnFailed(""), files)
  }

  /** The rest of the close handler, once the temp input is gone; `summary` is the
      summary's name and `flag` the mode flag. */
  function AfterExit(temp: bool, w: Worker, code: Option<int>, duration: string, files: set<string>,
                     summary: string, flag: string): Ending
  {
    if code != Some(0) then
      Ending([Send("error", "Summarization fehlgeschlagen (Exit-Code: " + CodeText(code) + ")", 0)],
             ExitFailed(code, ErrText(w.chunks), OutText(w.chunks)), files)
    else if summary !in files then
      Ending([Send("loading", "Lade Summary-Datei...", 98), Send("error", "Summary-Datei wurde nicht erstellt", 0)],
             SummaryMissing(summary), files)
    else
      var d := Completed(temp, w, duration, summary, flag);
      Ending([Send("loading", "Lade Summary-Datei...", 98)] + d.log, d.response,
             if temp then files - {summary} else files)
  }

  /** The success path: the summary is read, deleted when it came from a temp input,
      and delivered. */
  function Completed(temp: bool, w: Worker, duration: string, summary: string, flag: string): Ending
  {
    Ending((if temp then [Unlink(summary)] else [])
           + [Send("complete", "Summarization abgeschlossen in " + duration + "s", 100),
              Deliver(w.output, summary, None)],
           Summarized(summary, w.output, |Split(OutText(w.chunks), '\n')|, flag, temp),
           {})
  }

  /** The whole request: `duration` is the elapsed time as printed with one decimal. */
  function Run(req: Request, dir: set<string>, now: nat, w: Worker, duration: string): Ending
  {
    match Prepare(req, dir, now)
    case Stop(log, response) => Ending(log, response, dir)
    case Go(log, input, temp) =>
      var e := Finish(input, temp, w, duration, SummaryFile(input), Flag(input));
      Ending(log + ConfigActions(input) + StreamActions(SummarizeRoute, w.chunks) + e.log, e.response, e.left)
  }

  /** The checks and the input choice as the handler performs them. */
  method PrepareInput(req: Request, dir: set<string>, now: nat) returns (start: Start)
    ensures start == Prepare(req, dir, now)
  {
    if req.socketId.None? || req.socketId.value == "" {
      return Stop([], BadRequest("Keine Socket-ID angegeben"));
    }
    if req.transcription.Some? && req.transcription.value != "" && Trim(req.transcription.value) != "" {
      var tempFilename := "temp_" + NatToString(now) + "_transcription.txt";
      return Go([Send("init", "Verwende aktuelle Transkription...", 0), Write(tempFilename),
                 Send("init", "Tempor\U{00E4}re Datei erstellt: " + tempFilename, 5)], tempFilename, true);
    } else if req.filename.Some? && req.filename.value != "" {
      var log := [Send("init", "Starte Summarization f\U{00FC}r: " + req.filename.value, 0)];
      var txtPath := req.filename.value;
      if txtPath !in dir {
        return Stop(log, NotFound("TXT-Datei nicht gefunden: " + req.filename.value));
      }
      return Go(log, txtPath, false);
    } else {
      return Stop([], BadRequest("Kein Dateiname oder Transkription angegeben"));
    }
  }

  /** The close and error handlers. */
  method Close(input: string, temp: bool, w: Worker, duration: string, outputBuffer: string,
               errorBuffer: string)
    returns (ending: Ending)
    requires outputBuffer == OutText(w.chunks) && errorBuffer == ErrText(w.chunks)
    ensures ending == Finish(input, temp, w, duration, SummaryFile(input), Flag(input))
  {
    var actualFilename := NodeBasename(input);
    var promptFlag := LocalService.ModeFlag(actualFilename);
    var summaryPath := BasenameWithout(actualFilename, ".txt") + "_s.txt";
    if w.exit.SpawnError? {
      var c := DeleteTemp(input, temp, w.after);
      return Ending([Send("error", "WSL-Fehler: " + w.exit.message, 0)] + c.log, SpawnFailed(w.exit.message),
                    c.left);
    }
    var c := DeleteTemp(input, temp, w.after);
    var e := CheckExit(temp, w, w.exit.code, duration, c.left, summaryPath, promptFlag, outputBuffer, errorBuffer);
    ending := Ending(c.log + e.log, e.response, e.left);
  }

  method DeleteTemp(input: string, temp: bool, files: set<string>) returns (r: Ending)
    ensures r == RemoveTemp(input, temp, files)
  {
    r := Ending([], SpawnFailed(""), files);
    if temp && input in files {
      r := Ending([Unlink(input)], SpawnFailed(""), files - {input});
    }
  }

  method CheckExit(temp: bool, w: Worker, code: Option<int>, duration: string, files: set<string>,
                   summaryPath: string, promptFlag: string, outputBuffer: string, errorBuffer: string)
    returns (ending: Ending)
    requires outputBuffer == OutText(w.chunks) && errorBuffer == ErrText(w.chunks)
    ensures ending == AfterExit(temp, w, code, duration, files, summaryPath, promptFlag)
  {
    if code != Some(0) {
      return Ending([Send("error", "Summarization fehlgeschlagen (Exit-Code: " + CodeText(code) + ")", 0)],
                    ExitFailed(code, errorBuffer, outputBuffer), files);
    }
    var loading := Send("loading", "Lade Summary-Datei...", 98);
    if summaryPath !in files {
      return Ending([loading, Send("error", "Summary-Datei wurde nicht erstellt", 0)], SummaryMissing(summaryPath),
                    files);
    }
    var summary := w.output;
    var left := files;
    var deleted: seq<Action> := [];
    if temp {
      left := left - {summaryPath};
      deleted := [Unlink(summaryPath)];
    }
    var done := [Send("complete", "Summarization abgeschlossen in " + duration + "s", 100),
                 Deliver(summary, summaryPath, None)];
    ending := Ending([loading] + (deleted + done),
                     Summarized(summaryPath, summary, |Split(outputBuffer, '\n')|, promptFlag, temp), left);
  }

  /** POST /api/summarize-local. */
  method Summarize(req: Request, dir: set<string>, now: nat, w: Worker, duration: string)
    returns (ending: Ending)
    ensures ending == Run(req, dir, now, w, duration)
  {
    var start := PrepareInput(req, dir, now);
    if start.Stop? {
      return Ending(start.log, start.response, dir);
    }
    var log := start.log + ConfigActions(start.input);
    var streamed, outputBuffer, errorBuffer := Drain(SummarizeRoute, w.chunks);
    log := log + streamed;
    var e := Close(start.input, start.temp, w, duration, outputBuffer, errorBuffer);
    ending := Ending(log + e.log, e.response, e.left);
  }

  // ---------------------------------------------------------------------
  // Properties

  /** A request is turned away before the worker exactly when it has no socket id, or
      neither a usable transcription nor an existing file; then nothing is written or
      deleted and no event ends the client's wait. The answer is 404 exactly for a named
      file that is missing, which the client hears of only as an 'init' event. */
  lemma TurnedAway(req: Request, dir: set<string>, now: nat, w: Worker, duration: string)
    ensures Prepare(req, dir, now).Stop? <==>
      !LocalService.Truthy(req.socketId)
      || (!UsesTranscription(req) && (!LocalService.Truthy(req.filename) || req.filename.value !in dir))
    ensures Prepare(req, dir, now).Stop? ==>
      var e := Run(req, dir, now, w, duration);
      e.left == dir && NoTerminal(e.log) && (Status(e.response) == 400 || Status(e.response) == 404)
      && (Status(e.response) == 404 <==>
            LocalService.Truthy(req.socketId) && !UsesTranscription(req) && LocalService.Truthy(req.filename))
      && (Status(e.response) == 404 ==> e.log == [Send("init", "Starte Summarization f\U{00FC}r: " + req.filename.value, 0)])
    ensures !LocalService.Truthy(req.socketId) ==>
      Run(req, dir, now, w, duration) == Ending([], BadRequest("Keine Socket-ID angegeben"), dir)
  {
  }

  /** A transcription that is not blank wins over a file name and is written to the
      temp file before anything else happens on disk; otherwise the named file is used
      as it is and nothing is written. */
  lemma InputChoice(req: Request, dir: set<string>, now: nat)
    requires Prepare(req, dir, now).Go?
    ensures Prepare(req, dir, now).temp <==> UsesTranscription(req)
    ensures Prepare(req, dir, now).temp ==>
      Prepare(req, dir, now).input == TempName(now) && Prepare(req, dir, now).log[1] == Write(TempName(now))
    ensures !Prepare(req, dir, now).temp ==>
      Prepare(req, dir, now).input == req.filename.value && req.filename.value in dir
      && forall k :: 0 <= k < |Prepare(req, dir, now).log| ==> !Prepare(req, dir, now).log[k].Write?
  {
  }

  /** A transcription sent directly is always summarised in durchgabe mode: the temp
      file's name never contains "newsletter". */
  lemma TempInputIsDurchgabe(now: nat)
    ensures LocalService.ModeFlag(NodeBasename(TempName(now))) == "-durchgabe"
  {
    var name := TempName(now);
    TempNameChars(now);
    assert PlainName(name) by {
      assert name[1] == 'e';
    }
    PlainBasename(name);
    NoNewsletter(name);
  }

  predicate Plain(c: char) { LocalService.SafeChar(c) && c != 'w' && c != 'W' }

  lemma TempNameChars(now: nat)
    ensures forall k :: 0 <= k < |TempName(now)| ==> Plain(TempName(now)[k])
  {
    var d := NatToString(now);
    PlainLiterals();
    PlainJoin("temp_", d);
    PlainJoin("temp_" + d, "_transcription.txt");
  }

  lemma PlainLiterals()
    ensures forall k :: 0 <= k < |"temp_"| ==> Plain("temp_"[k])
    ensures forall k :: 0 <= k < |"_transcription.txt"| ==> Plain("_transcription.txt"[k])
  {
  }

  lemma PlainJoin(a: string, b: string)
    requires forall k :: 0 <= k < |a| ==> Plain(a[k])
    requires forall k :: 0 <= k < |b| ==> Plain(b[k]) || IsDigit(b[k])
    ensures forall k :: 0 <= k < |a + b| ==> Plain((a + b)[k])
  {
    forall k | 0 <= k < |a + b| ensures Plain((a + b)[k]) {
      if k < |a| { assert (a + b)[k] == a[k]; } else { assert (a + b)[k] == b[k - |a|]; }
    }
  }

  /** Without a 'w' in any case, the lower-cased name cannot contain "newsletter". */
  lemma NoNewsletter(name: string)
    requires forall k :: 0 <= k < |name| ==> Plain(name[k])
    ensures !Contains(Lower(name), "newsletter")
  {
    LowerLacksW(name);
    MissingChar(Lower(name), "newsletter", 2, 'w');
  }

  lemma LowerLacksW(name: string)
    requires forall k :: 0 <= k < |name| ==> Plain(name[k])
    ensures forall k :: 0 <= k < |Lower(name)| ==> Lower(name)[k] != 'w'
  {
    forall k | 0 <= k < |Lower(name)| ensures Lower(name)[k] != 'w' {
      NoLowerW(name, k);
    }
  }

  /** A text lacking one of a phrase's characters does not contain the phrase. */
  lemma MissingChar(s: string, p: string, j: nat, c: char)
    requires j < |p| && p[j] == c && forall k :: 0 <= k < |s| ==> s[k] != c
    ensures !Contains(s, p)
  {
    forall i | 0 <= i <= |s| ensures !OccursAt(s, p, i) {
      if i + |p| <= |s| {
        assert s[i..i + |p|][j] == s[i + j];
      }
    }
  }

  lemma NoLowerW(name: string, j: nat)
    requires j < |name| && Plain(name[j])
    ensures Lower(name)[j] != 'w'
  {
    LowerIndex(name, j);
    LowerCharW(name[j]);
  }

  lemma LowerCharW(c: char)
    requires c != 'w' && c != 'W'
    ensures LowerChar(c) != 'w'
  {
  }

  /** The temp input is gone once the worker has ended, however it ended; when it was
      still there at the close, deleting it is the handler's first action, before the
      exit code is looked at. */
  lemma TempInputRemoved(req: Request, dir: set<string>, now: nat, w: Worker, duration: string)
    requires Prepare(req, dir, now).Go? && Prepare(req, dir, now).temp
    ensures TempName(now) !in Run(req, dir, now, w, duration).left
    ensures w.exit.Closed? && TempName(now) in w.after ==>
      var t := TempName(now);
      Finish(t, true, w, duration, SummaryFile(t), Flag(t)).log[0] == Unlink(t)
  {
    var t := TempName(now);
    assert Prepare(req, dir, now).input == t;
    FinishRemovesTemp(t, w, duration, SummaryFile(t), Flag(t));
  }

  lemma FinishRemovesTemp(input: string, w: Worker, duration: string, summary: string, flag: string)
    ensures input !in Finish(input, true, w, duration, summary, flag).left
    ensures w.exit.Closed? && input in w.after ==> Finish(input, true, w, duration, summary, flag).log[0] == Unlink(input)
  {
    var c := RemoveTemp(input, true, w.after);
    if w.exit.Closed? {
      var e := AfterExit(true, w, w.exit.code, duration, c.left, summary, flag);
      assert e.left <= c.left;
    }
  }

  /** A file named in the request is never deleted, nor is anything else. */
  lemma NamedFileKept(input: string, w: Worker, duration: string, summary: string, flag: string)
    ensures Finish(input, false, w, duration, summary, flag).left == w.after
    ensures forall k :: 0 <= k < |Finish(input, false, w, duration, summary, flag).log| ==>
      !Finish(input, false, w, duration, summary, flag).log[k].Unlink?
  {
    var c := RemoveTemp(input, false, w.after);
    assert c.log == [];
    if w.exit.Closed? {
      var e := AfterExit(false, w, w.exit.code, duration, c.left, summary, flag);
      if w.exit.code == Some(0) && summary in c.left {
        var d := Completed(false, w, duration, summary, flag);
        assert d.log[0].Send? && d.log[1].Deliver? && |d.log| == 2;
      }
    }
  }

  /** On success the summary file stays exactly when it was made from a named file. */
  lemma SummaryKeptUnlessTemp(input: string, temp: bool, w: Worker, duration: string, summary: string, flag: string)
    requires Finish(input, temp, w, duration, summary, flag).response.Summarized?
    ensures summary in Finish(input, temp, w, duration, summary, flag).left <==> !temp
  {
  }

  /** Every request that starts the worker ends with exactly one terminal event, the
      last the client sees; the answer is 200 exactly when that event is the result. */
  lemma OneTerminalEvent(req: Request, dir: set<string>, now: nat, w: Worker, duration: string)
    requires Prepare(req, dir, now).Go?
    ensures Concludes(Run(req, dir, now, w, duration).log, Status(Run(req, dir, now, w, duration).response) == 200)
  {
    var g := Prepare(req, dir, now);
    var before := g.log + ConfigActions(g.input);
    var stream := StreamActions(SummarizeRoute, w.chunks);
    var e := Finish(g.input, g.temp, w, duration, SummaryFile(g.input), Flag(g.input));
    PreludeNoTerminal(req, dir, now);
    StreamNoTerminal(SummarizeRoute, w.chunks);
    NoTerminalJoin(before, stream);
    FinishEndsOnce(g.input, g.temp, w, duration, SummaryFile(g.input), Flag(g.input));
    ConcludesAfterRun(before + stream, e.log, Status(e.response) == 200);
  }

  /** No terminal event is sent before the worker starts. */
  lemma PreludeNoTerminal(req: Request, dir: set<string>, now: nat)
    requires Prepare(req, dir, now).Go?
    ensures NoTerminal(Prepare(req, dir, now).log + ConfigActions(Prepare(req, dir, now).input))
  {
    var g := Prepare(req, dir, now);
    StartNoTerminal(req, dir, now);
    ConfigNoTerminal(g.input);
    NoTerminalJoin(g.log, ConfigActions(g.input));
  }

  lemma StartNoTerminal(req: Request, dir: set<string>, now: nat)
    ensures NoTerminal(Prepare(req, dir, now).log)
  {
  }

  lemma ConfigNoTerminal(input: string)
    ensures NoTerminal(ConfigActions(input))
  {
  }

  lemma FinishEndsOnce(input: string, temp: bool, w: Worker, duration: string, summary: string, flag: string)
    ensures var e := Finish(input, temp, w, duration, summary, flag); Concludes(e.log, Status(e.response) == 200)
  {
    var c := RemoveTemp(input, temp, w.after);
    match w.exit
    case SpawnError(m) =>
      var x := Send("error", "WSL-Fehler: " + m, 0);
      ConcludesOne(x);
      ConcludesBeforeFiles([x], c.log, false);
    case Closed(code) =>
      var e := AfterExit(temp, w, code, duration, c.left, summary, flag);
      AfterExitEndsOnce(temp, w, code, duration, c.left, summary, flag);
      ConcludesAfterFiles(c.log, e.log, Status(e.response) == 200);
  }

  lemma AfterExitEndsOnce(temp: bool, w: Worker, code: Option<int>, duration: string, files: set<string>,
                          summary: string, flag: string)
    ensures var e := AfterExit(temp, w, code, duration, files, summary, flag); Concludes(e.log, Status(e.response) == 200)
  {
    var loading := Send("loading", "Lade Summary-Datei...", 98);
    if code != Some(0) {
      ConcludesOne(Send("error", "Summarization fehlgeschlagen (Exit-Code: " + CodeText(code) + ")", 0));
    } else if summary !in files {
      var x := Send("error", "Summary-Datei wurde nicht erstellt", 0);
      ConcludesOne(x);
      ConcludesAfterProgress(loading, [x], false);
      assert [loading] + [x] == [loading, x];
    } else {
      CompletedEndsOnce(temp, w, duration, summary, flag);
      ConcludesAfterProgress(loading, Completed(temp, w, duration, summary, flag).log, true);
    }
  }

  lemma CompletedEndsOnce(temp: bool, w: Worker, duration: string, summary: string, flag: string)
    ensures Events(Completed(temp, w, duration, summary, flag).log)
      == [Send("complete", "Summarization abgeschlossen in " + duration + "s", 100), Deliver(w.output, summary, None)]
    ensures Concludes(Completed(temp, w, duration, summary, flag).log, true)
  {
    var complete := Send("complete", "Summarization abgeschlossen in " + duration + "s", 100);
    var x := Deliver(w.output, summary, None);
    var del: seq<Action> := if temp then [Unlink(summary)] else [];
    ConcludesOne(x);
    ConcludesAfterProgress(complete, [x], true);
    EndsAfterProgress(complete, [x]);
    ConcludesAfterFiles(del, [complete] + [x], true);
    EndsAfterFiles(del, [complete] + [x]);
    assert [complete] + [x] == [complete, x];
  }
}
