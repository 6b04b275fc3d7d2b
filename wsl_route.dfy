// What the two WSL-backed routes (server/routes/summarize-local.js and
// server/routes/transcribe-local.js) share: the worker run as an abstract record, the
// actions a route performs in order, and the handling of the worker's output chunks.

module WslRoute {
  import opened StrUtil
  import LocalService

  /** A piece of the worker's output as it arrives: on stdout or on stderr. */
  datatype Chunk = Out(text: string) | Err(text: string)

  /** What a route does, in order: a progress event on the client's socket, a file
      written or deleted in the audio directory, or the final result event. */
  datatype Action =
    | Send(step: string, message: string, progress: int)
    | Write(name: string)
    | Unlink(name: string)
    | Deliver(transcription: string, filename: string, mp3Filename: Option<string>)

  /** How the worker ended: a 'close' with its exit code (none when it was killed by a
      signal), or an 'error' because it could not be started. */
  datatype Exit = Closed(code: Option<int>) | SpawnError(message: string)

  /** The worker run: its output in arrival order, how it ended, the names in the audio
      directory when it ended, and the text of the result file the route reads. */
  datatype Worker = Worker(chunks: seq<Chunk>, exit: Exit, after: set<string>, output: string)

  datatype Route = SummarizeRoute | TranscribeRoute

  /** A socket event that ends the client's wait: an error or the result. */
  predicate IsTerminal(a: Action)
  {
    (a.Send? && a.step == "error") || a.Deliver?
  }

  // ---------------------------------------------------------------------
  // Progress classifiers: a run of independent `if`s, so the last phrase found wins

  const SummarizePhrases: seq<(string, int)> :=
    [("lade summarizer", 30), ("lade tokenizer", 40), ("teile transkription in Bl\U{00F6}cke", 50),
     ("generiere \U{00DC}berschrift", 60), ("summary=", 70), ("Speichern der Summary", 90),
     ("erfolgreich gespeichert", 95)]

  const TranscribePhrases: seq<(string, int)> :=
    [("Lade Modell", 30), ("Modell geladen", 50), ("Transkription der mp3", 60),
     ("Transkription beendet", 90), ("erfolgreich gespeichert", 95)]

  function Phrases(route: Route): seq<(string, int)>
  {
    if route == SummarizeRoute then SummarizePhrases else TranscribePhrases
  }

  /** The progress of a summariser line: 20, overwritten by every phrase it contains. */
  method ClassifySummarizeLine(clean: string) returns (progress: int)
    ensures progress == SequentialIfs(SummarizePhrases, clean, 20)
  {
    ghost var t := SummarizePhrases;
    progress := 20;
    if Contains(clean, "lade summarizer") { progress := 30; }
    assert SequentialIfs(t, clean, 20) == SequentialIfs(t[1..], clean, progress);
    if Contains(clean, "lade tokenizer") { progress := 40; }
    assert SequentialIfs(t, clean, 20) == SequentialIfs(t[2..], clean, progress);
    if Contains(clean, "teile transkription in Bl\U{00F6}cke") { progress := 50; }
    assert SequentialIfs(t, clean, 20) == SequentialIfs(t[3..], clean, progress);
    if Contains(clean, "generiere \U{00DC}berschrift") { progress := 60; }
    assert SequentialIfs(t, clean, 20) == SequentialIfs(t[4..], clean, progress);
    if Contains(clean, "summary=") { progress := 70; }
    assert SequentialIfs(t, clean, 20) == SequentialIfs(t[5..], clean, progress);
    if Contains(clean, "Speichern der Summary") { progress := 90; }
    assert SequentialIfs(t, clean, 20) == SequentialIfs(t[6..], clean, progress);
    if Contains(clean, "erfolgreich gespeichert") { progress := 95; }
    assert SequentialIfs(t, clean, 20) == SequentialIfs(t[7..], clean, progress);
  }

  /** The progress of a transcriber line: 20, overwritten by every phrase it contains. */
  method ClassifyTranscribeLine(clean: string) returns (progress: int)
    ensures progress == SequentialIfs(TranscribePhrases, clean, 20)
  {
    ghost var t := TranscribePhrases;
    progress := 20;
    if Contains(clean, "Lade Modell") { progress := 30; }
    assert SequentialIfs(t, clean, 20) == SequentialIfs(t[1..], clean, progress);
    if Contains(clean, "Modell geladen") { progress := 50; }
    assert SequentialIfs(t, clean, 20) == SequentialIfs(t[2..], clean, progress);
    if Contains(clean, "Transkription der mp3") { progress := 60; }
    assert SequentialIfs(t, clean, 20) == SequentialIfs(t[3..], clean, progress);
    if Contains(clean, "Transkription beendet") { progress := 90; }
    assert SequentialIfs(t, clean, 20) == SequentialIfs(t[4..], clean, progress);
    if Contains(clean, "erfolgreich gespeichert") { progress := 95; }
    assert SequentialIfs(t, clean, 20) == SequentialIfs(t[5..], clean, progress);
  }

  /** A summariser line naming both a single heading and the final save reports the
      save: the later `if` overrides the earlier one. */
  lemma SummarizeLastPhraseWins(line: string)
    requires Contains(line, "summary=") && Contains(line, "erfolgreich gespeichert")
    ensures SequentialIfs(SummarizePhrases, line, 20) == 95
  {
    SequentialIfsIs(SummarizePhrases, line, 20, 6);
  }

  /** The service's transcriber classifier and this route's disagree on a line naming
      both the model load and its completion: the first phrase wins there (30), the last
      here (50). */
  lemma TranscribeClassifiersDisagree(line: string)
    requires Contains(line, "Lade Modell") && Contains(line, "Modell geladen")
    requires !Contains(line, "Transkription der mp3") && !Contains(line, "Transkription beendet")
    requires !Contains(line, "erfolgreich gespeichert")
    ensures SequentialIfs(TranscribePhrases, line, 20) == 50
    ensures LocalService.Classify(LocalService.Transcriber, line) == 30
  {
    SequentialIfsIs(TranscribePhrases, line, 20, 1);
    LocalService.TranscribeFirstPhraseWins(line);
  }

  /** Every progress value a classifier can give. */
  lemma {:induction false} SequentialIfsRange(t: seq<(string, int)>, s: string, current: int)
    requires current in {20, 30, 40, 50, 60, 70, 90, 95}
    requires forall k :: 0 <= k < |t| ==> t[k].1 in {20, 30, 40, 50, 60, 70, 90, 95}
    ensures SequentialIfs(t, s, current) in {20, 30, 40, 50, 60, 70, 90, 95}
  {
    if t != [] {
      SequentialIfsRange(t[1..], s, if Contains(s, t[0].0) then t[0].1 else current);
    }
  }

  // ---------------------------------------------------------------------
  // The worker's output

  /** A stdout line: nothing when it is blank, otherwise a 'processing' event with the
      line without control sequences and its progress. */
  function LineActions(route: Route, line: string): seq<Action>
  {
    if Trim(line) == "" then []
    else
      var clean := LocalService.StripAnsi(line);
      [Send("processing", clean, SequentialIfs(Phrases(route), clean, 20))]
  }

  function LinesActions(route: Route, lines: seq<string>): seq<Action>
  {
    if lines == [] then []
    else LinesActions(route, lines[..|lines| - 1]) + LineActions(route, lines[|lines| - 1])
  }

  /** A stdout chunk is split at '\n' and each line handled on its own; a stderr chunk,
      blank or not, becomes one 'warning' event with progress 0. */
  function ChunkActions(route: Route, c: Chunk): seq<Action>
  {
    match c
    case Out(t) => LinesActions(route, Split(t, '\n'))
    case Err(t) => [Send("warning", LocalService.StripAnsi(t), 0)]
  }

  function StreamActions(route: Route, chunks: seq<Chunk>): seq<Action>
  {
    if chunks == [] then []
    else StreamActions(route, chunks[..|chunks| - 1]) + ChunkActions(route, chunks[|chunks| - 1])
  }

  /** `outputBuffer`: the stdout chunks in order. */
  function OutText(chunks: seq<Chunk>): string
  {
    if chunks == [] then ""
    else OutText(chunks[..|chunks| - 1]) + (if chunks[|chunks| - 1].Out? then chunks[|chunks| - 1].text else "")
  }

  /** `errorBuffer`: the stderr chunks in order. */
  function ErrText(chunks: seq<Chunk>): string
  {
    if chunks == [] then ""
    else ErrText(chunks[..|chunks| - 1]) + (if chunks[|chunks| - 1].Err? then chunks[|chunks| - 1].text else "")
  }

  /** The stdout handler for one chunk: one event per non-blank line, in order. */
  method HandleOut(route: Route, output: string) returns (actions: seq<Action>)
    ensures actions == LinesActions(route, Split(output, '\n'))
  {
    var lines := Split(output, '\n');
    actions := [];
    for j := 0 to |lines|
      invariant actions == LinesActions(route, lines[..j])
    {
      var more := HandleLine(route, lines[j]);
      LinesStep(route, lines, j);
      actions := actions + more;
    }
    assert lines[..|lines|] == lines;
  }

  lemma LinesStep(route: Route, lines: seq<string>, j: nat)
    requires j < |lines|
    ensures LinesActions(route, lines[..j + 1]) == LinesActions(route, lines[..j]) + LineActions(route, lines[j])
  {
    assert lines[..j + 1][..j] == lines[..j];
  }

  /** The body of the per-line loop. */
  method HandleLine(route: Route, line: string) returns (actions: seq<Action>)
    ensures actions == LineActions(route, line)
  {
    actions := [];
    if Trim(line) != "" {
      var cleanLine := LocalService.StripAnsi(line);
      var progress;
      if route == SummarizeRoute {
        progress := ClassifySummarizeLine(cleanLine);
      } else {
        progress := ClassifyTranscribeLine(cleanLine);
      }
      actions := [Send("processing", cleanLine, progress)];
    }
  }

  /** The worker's output as the route handles it, chunk by chunk, with both buffers. */
  method Drain(route: Route, chunks: seq<Chunk>) returns (actions: seq<Action>, outputBuffer: string,
                                                          errorBuffer: string)
    ensures actions == StreamActions(route, chunks)
    ensures outputBuffer == OutText(chunks) && errorBuffer == ErrText(chunks)
  {
    actions, outputBuffer, errorBuffer := [], "", "";
    for i := 0 to |chunks|
      invariant actions == StreamActions(route, chunks[..i])
      invariant outputBuffer == OutText(chunks[..i]) && errorBuffer == ErrText(chunks[..i])
    {
      assert chunks[..i + 1][..i] == chunks[..i];
      match chunks[i]
      case Out(output) =>
        outputBuffer := outputBuffer + output;
        var more := HandleOut(route, output);
        actions := actions + more;
      case Err(error) =>
        errorBuffer := errorBuffer + error;
        actions := actions + [Send("warning", LocalService.StripAnsi(error), 0)];
    }
    assert chunks[..|chunks|] == chunks;
  }

  /** Handling the output never ends the client's wait: every event is a 'processing'
      or 'warning' progress event, with one of the classifier's values. */
  predicate Streaming(a: Action)
  {
    a.Send? && (a.step == "processing" || a.step == "warning")
    && a.progress in {0, 20, 30, 40, 50, 60, 70, 90, 95}
  }

  lemma {:induction false} StreamActionsStreaming(route: Route, chunks: seq<Chunk>)
    ensures forall k :: 0 <= k < |StreamActions(route, chunks)| ==> Streaming(StreamActions(route, chunks)[k])
    ensures forall k :: 0 <= k < |StreamActions(route, chunks)| ==> !IsTerminal(StreamActions(route, chunks)[k])
    decreases |chunks|
  {
    if chunks != [] {
      var n := |chunks| - 1;
      StreamActionsStreaming(route, chunks[..n]);
      ChunkStreaming(route, chunks[n]);
      StreamingAppend(StreamActions(route, chunks[..n]), ChunkActions(route, chunks[n]));
    }
  }

  lemma ChunkStreaming(route: Route, c: Chunk)
    ensures forall k :: 0 <= k < |ChunkActions(route, c)| ==> Streaming(ChunkActions(route, c)[k])
  {
    if c.Out? {
      LinesStreaming(route, Split(c.text, '\n'));
    }
  }

  lemma {:induction false} LinesStreaming(route: Route, lines: seq<string>)
    ensures forall k :: 0 <= k < |LinesActions(route, lines)| ==> Streaming(LinesActions(route, lines)[k])
    decreases |lines|
  {
    if lines != [] {
      var n := |lines| - 1;
      LinesStreaming(route, lines[..n]);
      LineStreaming(route, lines[n]);
      StreamingAppend(LinesActions(route, lines[..n]), LineActions(route, lines[n]));
    }
  }

  lemma LineStreaming(route: Route, line: string)
    ensures forall k :: 0 <= k < |LineActions(route, line)| ==> Streaming(LineActions(route, line)[k])
  {
    var clean := LocalService.StripAnsi(line);
    SequentialIfsRange(Phrases(route), clean, 20);
    OneStreaming(LineActions(route, line), Send("processing", clean, SequentialIfs(Phrases(route), clean, 20)));
  }

  lemma OneStreaming(a: seq<Action>, e: Action)
    requires Streaming(e) && (a == [] || a == [e])
    ensures forall k :: 0 <= k < |a| ==> Streaming(a[k])
  {
  }

  lemma StreamingAppend(a: seq<Action>, b: seq<Action>)
    requires forall k :: 0 <= k < |a| ==> Streaming(a[k])
    requires forall k :: 0 <= k < |b| ==> Streaming(b[k])
    ensures forall k :: 0 <= k < |a + b| ==> Streaming((a + b)[k])
    ensures forall k :: 0 <= k < |a + b| ==> !IsTerminal((a + b)[k])
  {
    forall k | 0 <= k < |a + b| ensures Streaming((a + b)[k]) {
      if k < |a| { assert (a + b)[k] == a[k]; } else { assert (a + b)[k] == b[k - |a|]; }
    }
  }

  // ---------------------------------------------------------------------
  // Shared pieces of the close handlers

  /** `path.basename(p, ext)` with the Windows path rules: the last component without a
      final `ext`; a component that is exactly `ext` is kept unless it is the whole path. */
  function BasenameWithout(p: string, ext: string): string
  {
    var b := NodeBasename(p);
    if p == ext then "" else if EndsWith(b, ext) && b != ext then b[..|b| - |ext|] else b
  }

  /** The exit code as a template literal prints it; a signal leaves it null. */
  function CodeText(code: Option<int>): string
  {
    if code.None? then "null" else LocalService.IntToString(code.value)
  }

  /** A socket event, as opposed to a file operation. */
  predicate IsEvent(a: Action) { a.Send? || a.Deliver? }

  /** The socket events of a log, in order. */
  function Events(log: seq<Action>): seq<Action>
  {
    if log == [] then []
    else Events(log[..|log| - 1]) + (if IsEvent(log[|log| - 1]) then [log[|log| - 1]] else [])
  }

  lemma {:induction false} EventsAppend(a: seq<Action>, b: seq<Action>)
    ensures Events(a + b) == Events(a) + Events(b)
    decreases |b|
  {
    if b != [] {
      var n := |b| - 1;
      assert (a + b)[..|a + b| - 1] == a + b[..n];
      assert (a + b)[|a + b| - 1] == b[n];
      EventsAppend(a, b[..n]);
    } else {
      assert a + b == a;
    }
  }

  lemma {:induction false} EventsNoTerminal(log: seq<Action>)
    requires NoTerminal(log)
    ensures NoTerminal(Events(log))
    decreases |log|
  {
    if log != [] {
      var n := |log| - 1;
      EventsNoTerminal(log[..n]);
      NoTerminalJoin(Events(log[..n]), if IsEvent(log[n]) then [log[n]] else []);
    }
  }

  /** The client sees exactly one terminal event, and it is the last event it sees. */
  predicate EndsOnce(events: seq<Action>)
  {
    |events| > 0 && IsTerminal(events[|events| - 1]) && forall k :: 0 <= k < |events| - 1 ==> !IsTerminal(events[k])
  }

  predicate NoTerminal(log: seq<Action>)
  {
    forall k :: 0 <= k < |log| ==> !IsTerminal(log[k])
  }

  lemma EndsOnceAfter(a: seq<Action>, b: seq<Action>)
    requires NoTerminal(a) && EndsOnce(b)
    ensures EndsOnce(a + b)
  {
    forall k | 0 <= k < |a + b| - 1 ensures !IsTerminal((a + b)[k]) {
      if k < |a| { assert (a + b)[k] == a[k]; } else { assert (a + b)[k] == b[k - |a|]; }
    }
    assert (a + b)[|a + b| - 1] == b[|b| - 1];
  }

  lemma NoTerminalJoin(a: seq<Action>, b: seq<Action>)
    requires NoTerminal(a) && NoTerminal(b)
    ensures NoTerminal(a + b)
  {
    forall k | 0 <= k < |a + b| ensures !IsTerminal((a + b)[k]) {
      if k < |a| { assert (a + b)[k] == a[k]; } else { assert (a + b)[k] == b[k - |a|]; }
    }
  }

  lemma StreamNoTerminal(route: Route, chunks: seq<Chunk>)
    ensures NoTerminal(StreamActions(route, chunks))
  {
    StreamActionsStreaming(route, chunks);
  }

  /** A run whose actions before the close handler hold no terminal event, and whose
      close handler's events end once, ends once. */
  lemma RunEndsOnce(before: seq<Action>, closing: seq<Action>)
    requires NoTerminal(before) && EndsOnce(Events(closing))
    ensures EndsOnce(Events(before + closing))
    ensures var ev, cv := Events(before + closing), Events(closing); ev[|ev| - 1] == cv[|cv| - 1]
  {
    EventsAppend(before, closing);
    EventsNoTerminal(before);
    EndsOnceAfter(Events(before), Events(closing));
    var bv, cv := Events(before), Events(closing);
    assert (bv + cv)[|bv + cv| - 1] == cv[|cv| - 1];
  }

  /** A single terminal event ends the run. */
  lemma EndsWithOne(x: Action)
    requires IsTerminal(x)
    ensures Events([x]) == [x] && EndsOnce(Events([x]))
  {
    assert [x][..0] == [];
  }

  /** File operations after the end add no event. */
  lemma {:induction false} EventsOfFiles(log: seq<Action>)
    requires forall k :: 0 <= k < |log| ==> !IsEvent(log[k])
    ensures Events(log) == []
    decreases |log|
  {
    if log != [] {
      EventsOfFiles(log[..|log| - 1]);
    }
  }

  /** A progress event followed by a run that ends once. */
  lemma EndsAfterProgress(a: Action, rest: seq<Action>)
    requires a.Send? && a.step != "error" && EndsOnce(Events(rest))
    ensures Events([a] + rest) == [a] + Events(rest) && EndsOnce(Events([a] + rest))
  {
    EventsAppend([a], rest);
    EndsWithProgress(a);
    EndsOnceAfter([a], Events(rest));
  }

  lemma EndsWithProgress(a: Action)
    requires a.Send? && a.step != "error"
    ensures Events([a]) == [a] && NoTerminal([a])
  {
    assert [a][..0] == [];
  }

  /** File operations followed by a run that ends once. */
  lemma EndsAfterFiles(files: seq<Action>, rest: seq<Action>)
    requires forall k :: 0 <= k < |files| ==> !IsEvent(files[k])
    ensures Events(files + rest) == Events(rest)
  {
    EventsAppend(files, rest);
    EventsOfFiles(files);
  }

  /** A run that ends once, followed by file operations. */
  lemma FilesAfterEnd(log: seq<Action>, files: seq<Action>)
    requires forall k :: 0 <= k < |files| ==> !IsEvent(files[k])
    ensures Events(log + files) == Events(log)
  {
    EventsAppend(log, files);
    EventsOfFiles(files);
  }

  /** The log ends once, and its last event is the result exactly when `delivered`. */
  predicate Concludes(log: seq<Action>, delivered: bool)
  {
    var ev := Events(log);
    EndsOnce(ev) && (delivered <==> ev[|ev| - 1].Deliver?)
  }

  lemma ConcludesOne(x: Action)
    requires IsTerminal(x)
    ensures Concludes([x], x.Deliver?)
  {
    EndsWithOne(x);
  }

  lemma ConcludesAfterProgress(a: Action, rest: seq<Action>, delivered: bool)
    requires a.Send? && a.step != "error" && Concludes(rest, delivered)
    ensures Concludes([a] + rest, delivered)
  {
    EndsAfterProgress(a, rest);
    var ev := Events(rest);
    assert ([a] + ev)[|[a] + ev| - 1] == ev[|ev| - 1];
  }

  lemma ConcludesAfterFiles(files: seq<Action>, rest: seq<Action>, delivered: bool)
    requires forall k :: 0 <= k < |files| ==> !IsEvent(files[k])
    requires Concludes(rest, delivered)
    ensures Concludes(files + rest, delivered)
  {
    EndsAfterFiles(files, rest);
  }

  lemma ConcludesBeforeFiles(log: seq<Action>, files: seq<Action>, delivered: bool)
    requires forall k :: 0 <= k < |files| ==> !IsEvent(files[k])
    requires Concludes(log, delivered)
    ensures Concludes(log + files, delivered)
  {
    FilesAfterEnd(log, files);
  }

  lemma ConcludesAfterRun(before: seq<Action>, closing: seq<Action>, delivered: bool)
    requires NoTerminal(before) && Concludes(closing, delivered)
    ensures Concludes(before + closing, delivered)
  {
    RunEndsOnce(before, closing);
  }
}
