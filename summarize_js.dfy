// The server's summary route (server/routes/summarize.js): header detection and the
// overlapping blocks, the text sent to the model and the clean-up of its answer, and
// the document assembled from the transcript header, the digest and the enhanced body.

module SummarizeJs {
  import opened StrUtil
  import Helpers
  import BlockSummary

  // ---------------------------------------------------------------------
  // Timestamps

  /** The route's formatTimestamp is the client's: a missing, zero or negative duration
      gives "00:00:00", any other reads back as itself. */
  lemma FormatTimestampCases(seconds: Option<int>)
    ensures seconds.None? || seconds.value <= 0 ==> Helpers.FormatTimestamp(seconds) == "00:00:00"
    ensures seconds.Some? && seconds.value > 0 ==>
      Helpers.ParseTimestamp(Helpers.FormatTimestamp(seconds)) == Num(seconds.value)
  {
    if seconds.Some? && seconds.value > 0 {
      Helpers.ParseFormatRoundTrip(seconds.value);
    }
  }

  // ---------------------------------------------------------------------
  // Header and blocks

  /** A line that `trim()` empties. */
  predicate Blank(line: string) { Trim(line) == "" }

  /** The first index from `i` on whose line satisfies `p`. */
  function FirstFrom(lines: seq<string>, i: nat, p: string -> bool): (r: Option<nat>)
    ensures r.Some? ==> i <= r.value < |lines|
    decreases |lines| - i
  {
    if i >= |lines| then None
    else if p(lines[i]) then Some(i)
    else FirstFrom(lines, i + 1, p)
  }

  /** Where the content starts: after the first blank line that is not the first line,
      or at 0 when there is none. */
  function ContentStart(lines: seq<string>): (r: nat)
    ensures r <= |lines|
  {
    match FirstFrom(lines, 1, Blank)
    case None => 0
    case Some(i) => i + 1
  }

  lemma {:induction false} FirstFromNone(lines: seq<string>, i: nat, p: string -> bool)
    ensures FirstFrom(lines, i, p).None? <==> forall j :: i <= j < |lines| ==> !p(lines[j])
    decreases |lines| - i
  {
    if i < |lines| && !p(lines[i]) {
      FirstFromNone(lines, i + 1, p);
    }
  }

  lemma {:induction false} FirstFromSome(lines: seq<string>, i: nat, p: string -> bool)
    requires FirstFrom(lines, i, p).Some?
    ensures p(lines[FirstFrom(lines, i, p).value])
    ensures forall j :: i <= j < FirstFrom(lines, i, p).value ==> !p(lines[j])
    decreases |lines| - i
  {
    if !p(lines[i]) {
      FirstFromSome(lines, i + 1, p);
    }
  }

  /** The content starts right after the first blank line at index 1 or later; with no
      such line it is the whole text and the header is empty. The first line never ends
      the header, blank or not. */
  lemma ContentStartSpec(lines: seq<string>)
    ensures ContentStart(lines) == 0 <==> forall j :: 1 <= j < |lines| ==> !Blank(lines[j])
    ensures ContentStart(lines) != 0 ==>
      2 <= ContentStart(lines) && Blank(lines[ContentStart(lines) - 1])
      && forall j :: 1 <= j < ContentStart(lines) - 1 ==> !Blank(lines[j])
  {
    FirstFromNone(lines, 1, Blank);
    if FirstFrom(lines, 1, Blank).Some? {
      FirstFromSome(lines, 1, Blank);
    }
  }

  /** splitIntoBlocks: the header lines joined again, and the content cut into the
      twenty-line windows with stride ten. */
  method SplitIntoBlocks(transcription: string) returns (header: string, blocks: seq<seq<string>>)
    ensures var lines := Split(transcription, '\n');
      header == Join(lines[..ContentStart(lines)], "\n")
      && blocks == BlockSummary.Windows(lines[ContentStart(lines)..], 0)
  {
    var lines := Split(transcription, '\n');
    var contentStart := FindContentStart(lines);
    header := Join(lines[..contentStart], "\n");
    var contentLines := lines[contentStart..];
    blocks := BlockSummary.SplitBlocks(contentLines);
  }

  /** The scan for the end of the header: the first blank line past the first line. */
  method FindContentStart(lines: seq<string>) returns (contentStart: nat)
    ensures contentStart == ContentStart(lines)
  {
    contentStart := 0;
    var i := 0;
    while i < |lines|
      invariant 0 <= i <= |lines|
      invariant FirstFrom(lines, 1, Blank) == FirstFrom(lines, if i == 0 then 1 else i, Blank)
    {
      if Blank(lines[i]) && i > 0 {
        contentStart := i + 1;
        break;
      }
      i := i + 1;
    }
  }

  /** Every block is non-empty, and block k holds content lines 10k up to 10k + 20. */
  lemma BlocksNonEmpty(content: seq<string>, k: nat)
    requires k < |BlockSummary.Windows(content, 0)|
    ensures 10 * k < |content| && BlockSummary.Windows(content, 0)[k] != []
    ensures BlockSummary.Windows(content, 0)[k]
      == content[10 * k..BlockSummary.Min(10 * k + 20, |content|)]
  {
    BlockSummary.BlocksOfContent(content, k);
  }

  // ---------------------------------------------------------------------
  // The text sent to the model

  /** `\[\d{2}:\d{2}:\d{2}\]` at the start of `s`. */
  predicate BracketStampAt(s: string)
  {
    |s| >= 10 && s[0] == '[' && Helpers.IsStamp(s[1..9]) && s[9] == ']'
  }

  /** `text.replace(/\[\d{2}:\d{2}:\d{2}\]\s*\/g, '')`: every stamp found scanning left
      to right is deleted together with the white space after it. */
  function RemoveStampRuns(s: string): (r: string)
    ensures |r| <= |s|
    decreases |s|
  {
    if s == [] then []
    else if BracketStampAt(s) then RemoveStampRuns(TrimStart(s[10..], JsSpace))
    else [s[0]] + RemoveStampRuns(s[1..])
  }

  /** Text without '[' passes through in front of whatever follows it. */
  lemma {:induction false} RemoveStampRunsPrefix(a: string, b: string)
    requires '[' !in a
    ensures RemoveStampRuns(a + b) == a + RemoveStampRuns(b)
    decreases |a|
  {
    if a != [] {
      assert a[0] in a;
      assert (a + b)[0] == a[0] && (a + b)[1..] == a[1..] + b;
      RemoveStampRunsPrefix(a[1..], b);
      assert a == [a[0]] + a[1..];
    } else {
      assert a + b == b;
    }
  }

  /** A line as transcribe.js writes it: a stamp, a blank, and non-empty text that
      neither starts with white space nor holds '['. */
  predicate StampedLine(line: string, text: string)
  {
    |line| == |text| + 11 && BracketStampAt(line) && line[10] == ' ' && line[11..] == text
    && text != [] && '[' !in text && !White(JsSpace, text[0])
  }

  /** The model receives the texts of stamped lines joined by single blanks: each stamp
      goes with the blank after it. */
  lemma {:induction false} BlockOfStampedLines(block: seq<string>, texts: seq<string>)
    requires |block| == |texts| && block != []
    requires forall k :: 0 <= k < |block| ==> StampedLine(block[k], texts[k])
    ensures RemoveStampRuns(Join(block, " ")) == Join(texts, " ")
    decreases |block|
  {
    if |block| == 1 {
      StampedLineThen(block[0], texts[0], []);
      assert block[0] + [] == block[0] && texts[0] + [] == texts[0];
    } else {
      BlockOfStampedLines(block[1..], texts[1..]);
      JoinHead(block, " ");
      JoinHead(texts, " ");
      var rest := Join(block[1..], " ");
      AppendAssoc(block[0], " ", rest);
      StampedLineThen(block[0], texts[0], " " + rest);
      RemoveStampRunsPrefix(" ", rest);
      AppendAssoc(texts[0], " ", RemoveStampRuns(rest));
    }
  }

  lemma JoinHead(parts: seq<string>, sep: string)
    requires |parts| >= 2
    ensures Join(parts, sep) == parts[0] + sep + Join(parts[1..], sep)
  {
    JoinAppend([parts[0]], parts[1..], sep);
    assert [parts[0]] + parts[1..] == parts;
  }

  /** A stamped line in front of any text: the stamp and its blank go, the text stays. */
  lemma StampedLineThen(line: string, text: string, rest: string)
    requires StampedLine(line, text)
    ensures RemoveStampRuns(line + rest) == text + RemoveStampRuns(rest)
  {
    var s := line + rest;
    StampPrefix(line, rest);
    StampRunAt(s);
    StampedSuffix(line, text, rest);
    TrimBlank(text + rest);
    RemoveStampRunsPrefix(text, rest);
  }

  lemma StampedSuffix(line: string, text: string, rest: string)
    requires |line| == |text| + 11 && line[10] == ' ' && line[11..] == text
    ensures (line + rest)[10..] == " " + (text + rest)
  {
    var s := line + rest;
    assert |s[10..]| == |" " + (text + rest)|;
    forall k | 0 <= k < |s[10..]| ensures s[10..][k] == (" " + (text + rest))[k] {
      if k == 0 {
      } else if k < |text| + 1 {
        assert s[10..][k] == line[11..][k - 1];
      }
    }
  }

  lemma StampPrefix(line: string, rest: string)
    requires BracketStampAt(line)
    ensures BracketStampAt(line + rest)
  {
    assert (line + rest)[1..9] == line[1..9];
  }

  /** One step of the scan over a stamp. */
  lemma StampRunAt(s: string)
    requires BracketStampAt(s)
    ensures RemoveStampRuns(s) == RemoveStampRuns(TrimStart(s[10..], JsSpace))
  {
  }

  /** The blank after a stamp goes with it, and no more. */
  lemma TrimBlank(x: string)
    requires x != [] && !White(JsSpace, x[0])
    ensures TrimStart(" " + x, JsSpace) == x
  {
    assert (" " + x)[1..] == x;
  }

  /** The block text joins every line of the block, continuation lines included. */
  function BlockText(block: seq<string>): string
  {
    RemoveStampRuns(Join(block, " "))
  }

  /** A continuation line is part of the text sent to the model. */
  lemma ContinuationIncluded(block: seq<string>, piece: string)
    requires block != [] && '[' !in piece
    ensures BlockText(block + [Repeat(' ', 12) + piece])
      == RemoveStampRuns(Join(block, " ") + " " + Repeat(' ', 12) + piece)
  {
    var b := block + [Repeat(' ', 12) + piece];
    assert b[..|b| - 1] == block;
    AppendAssoc(Join(block, " ") + " ", Repeat(' ', 12), piece);
  }

  // ---------------------------------------------------------------------
  // Prompt choice

  /** The system prompt a request selects: one of the route's two prompts (their wording
      is not part of the model), or a property that the object literal `systemPrompts`
      inherits from Object.prototype, named by the prompt type. */
  datatype SystemPrompt = Newsletter | Durchgabe | Inherited(name: string)

  /** The properties every object literal inherits from Object.prototype. Each is truthy
      (a function, or Object.prototype itself for "__proto__"). */
  const ObjectPrototypeNames: set<string> :=
    {"constructor", "hasOwnProperty", "isPrototypeOf", "propertyIsEnumerable",
     "toLocaleString", "toString", "valueOf", "__defineGetter__", "__defineSetter__",
     "__lookupGetter__", "__lookupSetter__", "__proto__"}

  /** The prompt type of a request: 'durchgabe' when the field is absent. */
  function PromptTypeOf(given: Option<string>): string
  {
    match given
    case None => "durchgabe"
    case Some(t) => t
  }

  /** `systemPrompts[promptType] || systemPrompts.durchgabe`: an own property, else an
      inherited one, which being truthy is kept, else the durchgabe prompt. */
  function SystemContent(promptType: string): (r: SystemPrompt)
  {
    if promptType == "newsletter" then Newsletter
    else if promptType == "durchgabe" then Durchgabe
    else if promptType in ObjectPrototypeNames then Inherited(promptType)
    else Durchgabe
  }

  /** Only the type "newsletter" selects the newsletter prompt; a name inherited from
      Object.prototype selects that inherited value, whose string form is then sent as
      the prompt; an absent or any other type falls back to the durchgabe prompt. */
  lemma SystemContentChoice(given: Option<string>)
    ensures SystemContent(PromptTypeOf(given)) == Newsletter <==> given == Some("newsletter")
    ensures SystemContent(PromptTypeOf(given)).Inherited? <==>
              (given.Some? && given.value in ObjectPrototypeNames)
    ensures SystemContent(PromptTypeOf(given)).Inherited? ==>
              SystemContent(PromptTypeOf(given)).name == given.value
    ensures SystemContent(PromptTypeOf(given)) == Durchgabe <==>
              (given.None? || (given.value != "newsletter" && given.value !in ObjectPrototypeNames))
    ensures given.None? ==> PromptTypeOf(given) == "durchgabe"
  {
    assert "newsletter" !in ObjectPrototypeNames;
    assert "durchgabe" !in ObjectPrototypeNames;
  }

  /** "constructor" does not fall back: the inherited Object constructor is chosen. */
  lemma ConstructorPromptInherited()
    ensures SystemContent(PromptTypeOf(Some("constructor"))) == Inherited("constructor")
  {
    assert "constructor" in ObjectPrototypeNames;
  }

  // ---------------------------------------------------------------------
  // Clean-up of an answer

  /** What the RunPod call gives back: the text of the answer, or the message of the
      error it threw. */
  datatype Answer = Answered(text: string) | Failed(message: string)

  /** The RunPod call: from the system prompt and the user text (joined by a blank line
      into one prompt) to its answer. */
  type Api = (SystemPrompt, string) -> Answer

  /** Case-insensitive `word` at the start of `s` (the words are ASCII lower case). */
  predicate WordAt(s: string, word: string)
  {
    |word| <= |s| && Lower(s[..|word|]) == word
  }

  /** End of the lazy `\*.*?\*` that opens at `s[0]`: the first '*' after it, unless a
      line terminator comes first. */
  function StarClose(s: string, i: nat): Option<nat>
    decreases |s| - i
  {
    if i >= |s| || JsLineTerm(s[i]) then None
    else if s[i] == '*' then Some(i)
    else StarClose(s, i + 1)
  }

  lemma {:induction false} StarCloseBound(s: string, i: nat)
    ensures StarClose(s, i).Some? ==>
      i <= StarClose(s, i).value < |s| && s[StarClose(s, i).value] == '*'
    decreases |s| - i
  {
    if i < |s| && !JsLineTerm(s[i]) && s[i] != '*' {
      StarCloseBound(s, i + 1);
    }
  }

  /** Length of the match of `/(?:assistant|here is|\*.*?\*|system)/i` at the start of
      `s`, if any. */
  function ArtifactAt(s: string): Option<nat>
  {
    if WordAt(s, "assistant") then Some(9)
    else if WordAt(s, "here is") then Some(7)
    else if s != [] && s[0] == '*' && StarClose(s, 1).Some? then Some(StarClose(s, 1).value + 1)
    else if WordAt(s, "system") then Some(6)
    else None
  }

  lemma ArtifactLength(s: string)
    ensures ArtifactAt(s).Some? ==> 2 <= ArtifactAt(s).value <= |s|
  {
    StarCloseBound(s, 1);
  }

  /** `replace(..., '')` with the global flag: each match found scanning left to right
      is deleted and the scan goes on after it. */
  function RemoveArtifacts(s: string): (r: string)
    decreases |s|
  {
    if s == [] then []
    else match ArtifactAt(s)
      case Some(k) => ArtifactLength(s); RemoveArtifacts(s[k..])
      case None => [s[0]] + RemoveArtifacts(s[1..])
  }

  /** `if (!summary.endsWith('.')) summary += '.'` */
  function EndWithPeriod(t: string): (r: string)
  {
    if EndsWith(t, ".") then t else t + "."
  }

  /** The summary of one answer: trimmed, a period added, the artifacts deleted, trimmed
      again. */
  function Cleanup(answer: string): string
  {
    Trim(RemoveArtifacts(EndWithPeriod(Trim(answer))))
  }

  /** Unlike the command-line summariser, the route never loses the final period: every
      summary ends with '.', so none is empty. */
  lemma CleanupEndsWithPeriod(answer: string)
    ensures EndsWith(Cleanup(answer), ".")
  {
    var t := EndWithPeriod(Trim(answer));
    assert t != [] && t[|t| - 1] == '.';
    PeriodSurvives(t);
    var u := RemoveArtifacts(t);
    TrimKeepsPeriod(u);
  }

  /** No artifact reaches the final period. */
  lemma {:induction false} PeriodSurvives(s: string)
    requires s != [] && s[|s| - 1] == '.'
    ensures RemoveArtifacts(s) != [] && RemoveArtifacts(s)[|RemoveArtifacts(s)| - 1] == '.'
    decreases |s|
  {
    match ArtifactAt(s)
    case Some(k) =>
      ArtifactLength(s);
      ArtifactShort(s);
      PeriodSurvives(s[k..]);
    case None =>
      if |s| > 1 {
        PeriodSurvives(s[1..]);
      } else {
        assert s[1..] == [];
      }
  }

  /** A match never takes the last character when that character is '.'. */
  lemma ArtifactShort(s: string)
    requires s != [] && s[|s| - 1] == '.' && ArtifactAt(s).Some?
    ensures ArtifactAt(s).value < |s|
  {
    StarCloseBound(s, 1);
    if WordAt(s, "assistant") {
      WordNotPeriod(s, "assistant");
    } else if WordAt(s, "here is") {
      WordNotPeriod(s, "here is");
    } else if !(s[0] == '*' && StarClose(s, 1).Some?) {
      WordNotPeriod(s, "system");
    }
  }

  lemma WordNotPeriod(s: string, word: string)
    requires s != [] && s[|s| - 1] == '.' && WordAt(s, word)
    requires word != [] && '.' !in word
    ensures |word| < |s|
  {
    var k := |word| - 1;
    LowerIndex(s[..|word|], k);
    assert s[..|word|][k] == s[k];
    assert word[k] in word;
  }

  lemma TrimKeepsPeriod(u: string)
    requires u != [] && u[|u| - 1] == '.'
    ensures EndsWith(Trim(u), ".")
  {
    StartKeepsPeriod(u);
    EndKeepsPeriod(TrimStart(u, JsSpace));
  }

  lemma EndKeepsPeriod(v: string)
    requires v != [] && v[|v| - 1] == '.'
    ensures EndsWith(TrimEnd(v, JsSpace), ".")
  {
    assert TrimEnd(v, JsSpace) == v;
    assert v[|v| - 1..] == ".";
  }

  lemma StartKeepsPeriod(u: string)
    requires u != [] && u[|u| - 1] == '.'
    ensures TrimStart(u, JsSpace) != [] && TrimStart(u, JsSpace)[|TrimStart(u, JsSpace)| - 1] == '.'
  {
    TrimStartKeepsLast(u, JsSpace);
  }

  /** Trimming the front leaves a last character that is not white space. */
  lemma {:induction false} TrimStartKeepsLast(u: string, ws: Space)
    requires u != [] && !White(ws, u[|u| - 1])
    ensures TrimStart(u, ws) != [] && TrimStart(u, ws)[|TrimStart(u, ws)| - 1] == u[|u| - 1]
    decreases |u|
  {
    if White(ws, u[0]) {
      assert |u| > 1;
      TrimStartKeepsLast(u[1..], ws);
      assert u[1..][|u| - 2] == u[|u| - 1];
    }
  }

  /** A marker is deleted and the text after it is kept, where the command-line
      summariser cuts everything from the marker on. */
  lemma MarkerDeleted(w: string, rest: string)
    requires Lower(w) == "system"
    ensures RemoveArtifacts(w + rest) == RemoveArtifacts(rest)
  {
    var s := w + rest;
    assert s[..6] == w;
    LowerIndex(w, 0);
    assert LowerChar(s[0]) == 's';
    if WordAt(s, "assistant") {
      FirstLower(s, "assistant");
      assert false;
    }
    if WordAt(s, "here is") {
      FirstLower(s, "here is");
      assert false;
    }
    assert s[0] != '*';
    assert ArtifactAt(s) == Some(6);
    assert s[6..] == rest;
  }

  lemma FirstLower(s: string, word: string)
    requires s != [] && word != [] && WordAt(s, word)
    ensures LowerChar(s[0]) == word[0]
  {
    LowerIndex(s[..|word|], 0);
  }

  /** Text in which no artifact starts is left as it is. */
  lemma {:induction false} RemoveArtifactsPlain(s: string)
    requires forall i :: 0 <= i < |s| ==> ArtifactAt(s[i..]).None?
    ensures RemoveArtifacts(s) == s
    decreases |s|
  {
    if s != [] {
      assert s[0..] == s;
      forall i | 0 <= i < |s| - 1 ensures ArtifactAt(s[1..][i..]).None? {
        assert s[1..][i..] == s[i + 1..];
      }
      RemoveArtifactsPlain(s[1..]);
      assert s == [s[0]] + s[1..];
    }
  }

  // ---------------------------------------------------------------------
  // The document

  /** `process.env.LLAMA_MODEL || 'Llama-3.1-8B-CT2'` */
  function ModelName(env: Option<string>): string
  {
    if env.None? || env.value == "" then "Llama-3.1-8B-CT2" else env.value
  }

  /** The summary header's lines before the summaries. */
  function MetaLines(start: string, seconds: int, model: string, promptType: string): seq<string>
  {
    [BlockSummary.Rule(), "Zusammenfassung des Transkripts", BlockSummary.Rule(),
     "Start:   " + start, "Dauer:   " + Helpers.FormatTimestamp(Some(seconds)),
     "Modell:  " + model, "Typ:     " + promptType, "", "Gesamtzusammenfassung:"]
  }

  /** The full summary: the transcript header, a blank line, the metadata, one line per
      summary and an empty line, then the enhanced body. */
  function FullSummary(header: string, meta: seq<string>, summaries: seq<string>,
                       blocks: seq<seq<string>>): string
    requires |summaries| == |blocks|
  {
    header + "\n\n" + Join(meta + summaries + [""], "\n") + BlockSummary.Body(summaries, blocks)
  }

  /** The model's answer for each block: the prompt of the block's text sent with the
      chosen system prompt. */
  function Asker(system: SystemPrompt, api: Api): seq<string> -> Answer
  {
    block => api(system, BlockSummary.UserContent(BlockText(block)))
  }

  /** The summary made of an answer that arrived. */
  function SummaryOf(a: Answer): string
  {
    if a.Answered? then Cleanup(a.text) else ""
  }

  /** The summary of each block whose call succeeded. */
  function Summarizer(ask: seq<string> -> Answer): seq<string> -> string
  {
    block => SummaryOf(ask(block))
  }

  /** The message of the first block whose call failed, if any. */
  function FirstFailure(blocks: seq<seq<string>>, ask: seq<string> -> Answer): (r: Option<string>)
  {
    if blocks == [] then None
    else match FirstFailure(blocks[..|blocks| - 1], ask)
      case Some(m) => Some(m)
      case None =>
        var a := ask(blocks[|blocks| - 1]);
        if a.Failed? then Some(a.message) else None
  }

  /** There is no failure exactly when every call succeeds, and a failure is the
      failure of the earliest block whose call fails. */
  lemma {:induction false} FirstFailureSpec(blocks: seq<seq<string>>, ask: seq<string> -> Answer)
    ensures FirstFailure(blocks, ask).None? <==> forall k :: 0 <= k < |blocks| ==> ask(blocks[k]).Answered?
    ensures FirstFailure(blocks, ask).Some? ==>
      exists k :: 0 <= k < |blocks| && ask(blocks[k]).Failed?
        && FirstFailure(blocks, ask).value == ask(blocks[k]).message
        && forall j :: 0 <= j < k ==> ask(blocks[j]).Answered?
    decreases |blocks|
  {
    if blocks != [] {
      var front := blocks[..|blocks| - 1];
      FirstFailureSpec(front, ask);
      assert forall k :: 0 <= k < |front| ==> front[k] == blocks[k];
      if FirstFailure(front, ask).Some? {
        var k :| 0 <= k < |front| && ask(front[k]).Failed?
          && FirstFailure(front, ask).value == ask(front[k]).message
          && forall j :: 0 <= j < k ==> ask(front[j]).Answered?;
        assert ask(blocks[k]).Failed?;
      }
    }
  }

  /** A failure among the first blocks is the failure of the whole run. */
  lemma {:induction false} FirstFailurePrefix(blocks: seq<seq<string>>, i: nat, ask: seq<string> -> Answer)
    requires i <= |blocks| && FirstFailure(blocks[..i], ask).Some?
    ensures FirstFailure(blocks, ask) == FirstFailure(blocks[..i], ask)
    decreases |blocks| - i
  {
    if i < |blocks| {
      assert blocks[..i + 1][..i] == blocks[..i];
      FirstFailurePrefix(blocks, i + 1, ask);
    } else {
      assert blocks[..i] == blocks;
    }
  }

  /** The answer of the route. */
  datatype Reply = BadRequest(error: string) | ServerError(error: string)
                 | Summarized(summary: string, summaries: seq<string>)

  /** What the route answers for a present transcription. */
  function Outcome(transcription: string, promptType: string, endpoint: Option<string>,
                   api: Api, start: string, seconds: int, modelEnv: Option<string>): Reply
  {
    var lines := Split(transcription, '\n');
    var cs := ContentStart(lines);
    var blocks := BlockSummary.Windows(lines[cs..], 0);
    var ask := Asker(SystemContent(promptType), api);
    if blocks != [] && (endpoint.None? || endpoint.value == "") then
      ServerError("RUNPOD_LLAMA_ENDPOINT nicht konfiguriert")
    else if FirstFailure(blocks, ask).Some? then
      ServerError("Zusammenfassung fehlgeschlagen: " + FirstFailure(blocks, ask).value)
    else
      var summaries := BlockSummary.Summaries(blocks, Summarizer(ask));
      Summarized(FullSummary(Join(lines[..cs], "\n"),
                             MetaLines(start, seconds, ModelName(modelEnv), promptType),
                             summaries, blocks), summaries)
  }

  /** POST /api/summarize: 400 without a transcription; otherwise the blocks are
      summarised in order, and the first call that cannot be made or fails ends the
      request with 500. */
  method Summarize(transcription: Option<string>, promptType: Option<string>,
                   endpoint: Option<string>, api: Api, start: string, seconds: int,
                   modelEnv: Option<string>) returns (reply: Reply)
    ensures transcription.None? || transcription.value == "" ==>
      reply == BadRequest("Keine Transkription angegeben")
    ensures transcription.Some? && transcription.value != "" ==>
      reply == Outcome(transcription.value, PromptTypeOf(promptType), endpoint, api, start,
                       seconds, modelEnv)
  {
    if transcription.None? || transcription.value == "" {
      return BadRequest("Keine Transkription angegeben");
    }
    var pt := PromptTypeOf(promptType);
    var header, blocks := SplitIntoBlocks(transcription.value);
    var summaries, enhanced, failure :=
      SummarizeAll(blocks, endpoint, Asker(SystemContent(pt), api));
    if failure.Some? {
      return ServerError(failure.value);
    }
    var meta := MetaLines(start, seconds, ModelName(modelEnv), pt);
    var summaryHeader := Join(meta + summaries + [""], "\n");
    var fullSummary := header + "\n\n" + summaryHeader + enhanced;
    reply := Summarized(fullSummary, summaries);
  }

  /** The loop over the blocks: one call per block, in order, each summary appended to
      the list and its section to the enhanced body; the first call that throws ends it. */
  method SummarizeAll(blocks: seq<seq<string>>, endpoint: Option<string>, ask: seq<string> -> Answer)
    returns (summaries: seq<string>, enhanced: string, failure: Option<string>)
    ensures blocks != [] && (endpoint.None? || endpoint.value == "") ==>
      failure == Some("RUNPOD_LLAMA_ENDPOINT nicht konfiguriert")
    ensures (blocks == [] || (endpoint.Some? && endpoint.value != "")) ==>
      match FirstFailure(blocks, ask)
      case Some(m) => failure == Some("Zusammenfassung fehlgeschlagen: " + m)
      case None =>
        failure.None? && summaries == BlockSummary.Summaries(blocks, Summarizer(ask))
        && enhanced == BlockSummary.Body(summaries, blocks)
  {
    summaries := [];
    enhanced := "";
    failure := None;
    var i := 0;
    while i < |blocks|
      invariant 0 <= i <= |blocks|
      invariant i > 0 ==> endpoint.Some? && endpoint.value != ""
      invariant Progress(blocks, i, ask, summaries, enhanced)
    {
      if endpoint.None? || endpoint.value == "" {
        return [], "", Some("RUNPOD_LLAMA_ENDPOINT nicht konfiguriert");
      }
      var answer := ask(blocks[i]);
      if answer.Failed? {
        FailureEnds(blocks, i, ask, summaries, enhanced);
        return [], "", Some("Zusammenfassung fehlgeschlagen: " + answer.message);
      }
      var summary := Cleanup(answer.text);
      assert summary == SummaryOf(answer);
      ProgressStep(blocks, i, ask, summaries, enhanced);
      summaries := summaries + [summary];
      enhanced := enhanced + ("\n----------  " + summary + "\n" + Join(blocks[i], "\n") + "\n");
      i := i + 1;
    }
    ProgressDone(blocks, ask, summaries, enhanced);
  }

  /** The loop's invariant: no call failed so far, and the summaries and the enhanced
      body are those of the blocks before `i`. */
  predicate Progress(blocks: seq<seq<string>>, i: nat, ask: seq<string> -> Answer,
                     summaries: seq<string>, enhanced: string)
  {
    i <= |blocks| && FirstFailure(blocks[..i], ask).None?
    && summaries == BlockSummary.Summaries(blocks[..i], Summarizer(ask))
    && enhanced == BlockSummary.Body(summaries, blocks[..i])
  }

  lemma ProgressStep(blocks: seq<seq<string>>, i: nat, ask: seq<string> -> Answer,
                     summaries: seq<string>, enhanced: string)
    requires i < |blocks| && Progress(blocks, i, ask, summaries, enhanced)
    requires ask(blocks[i]).Answered?
    ensures var summary := SummaryOf(ask(blocks[i]));
      Progress(blocks, i + 1, ask, summaries + [summary],
               enhanced + ("\n----------  " + summary + "\n" + Join(blocks[i], "\n") + "\n"))
  {
    var summary := SummaryOf(ask(blocks[i]));
    RunStep(blocks, i, ask);
    SummariesStep(blocks, i, ask);
    BlockSummary.BodyStep(summaries, blocks[..i], summary, blocks[i]);
    SectionText(summary, blocks[i]);
  }

  lemma FailureEnds(blocks: seq<seq<string>>, i: nat, ask: seq<string> -> Answer,
                    summaries: seq<string>, enhanced: string)
    requires i < |blocks| && Progress(blocks, i, ask, summaries, enhanced)
    requires ask(blocks[i]).Failed?
    ensures FirstFailure(blocks, ask) == Some(ask(blocks[i]).message)
  {
    RunStep(blocks, i, ask);
    FirstFailurePrefix(blocks, i + 1, ask);
  }

  lemma ProgressDone(blocks: seq<seq<string>>, ask: seq<string> -> Answer,
                     summaries: seq<string>, enhanced: string)
    requires Progress(blocks, |blocks|, ask, summaries, enhanced)
    ensures FirstFailure(blocks, ask).None?
    ensures summaries == BlockSummary.Summaries(blocks, Summarizer(ask))
    ensures enhanced == BlockSummary.Body(summaries, blocks)
  {
    assert blocks[..|blocks|] == blocks;
  }

  lemma SectionText(summary: string, block: seq<string>)
    ensures "\n----------  " + summary + "\n" + Join(block, "\n") + "\n"
      == BlockSummary.Section(summary, block)
  {
    assert "\n----------  " + summary == "\n" + BlockSummary.Heading(summary);
  }

  /** One more block: its failure, or that it is fine so far. */
  lemma RunStep(blocks: seq<seq<string>>, i: nat, ask: seq<string> -> Answer)
    requires i < |blocks| && FirstFailure(blocks[..i], ask).None?
    ensures ask(blocks[i]).Failed? ==> FirstFailure(blocks[..i + 1], ask) == Some(ask(blocks[i]).message)
    ensures ask(blocks[i]).Answered? ==> FirstFailure(blocks[..i + 1], ask).None?
    ensures blocks[..i] + [blocks[i]] == blocks[..i + 1]
  {
    assert blocks[..i + 1][..i] == blocks[..i];
    assert blocks[..i + 1][i] == blocks[i];
  }

  lemma SummariesStep(blocks: seq<seq<string>>, i: nat, ask: seq<string> -> Answer)
    requires i < |blocks|
    ensures BlockSummary.Summaries(blocks[..i + 1], Summarizer(ask))
      == BlockSummary.Summaries(blocks[..i], Summarizer(ask)) + [SummaryOf(ask(blocks[i]))]
  {
    assert blocks[..i + 1][..i] == blocks[..i];
    assert blocks[..i + 1][i] == blocks[i];
  }

  /** A transcript whose content is empty needs no model call, so a missing endpoint
      does not matter. */
  lemma NoContentNoCall(transcription: string, promptType: string, api: Api, start: string,
                        seconds: int, modelEnv: Option<string>)
    requires var lines := Split(transcription, '\n'); ContentStart(lines) == |lines|
    ensures Outcome(transcription, promptType, None, api, start, seconds, modelEnv).Summarized?
  {
  }

  // ---------------------------------------------------------------------
  // The document read back line by line

  /** The lines of the full summary: the header lines (a single empty line when the
      header is empty), an empty line, the metadata, the summaries, an empty line, then
      per block its heading, its lines and an empty line. */
  function SummaryLines(headerLines: seq<string>, meta: seq<string>, summaries: seq<string>,
                        blocks: seq<seq<string>>): seq<string>
    requires |summaries| == |blocks|
  {
    HeaderOrEmpty(headerLines) + [""] + (meta + summaries + [""] + BlockSummary.SectionLines(summaries, blocks))
  }

  /** An empty header still reads back as one empty line. */
  function HeaderOrEmpty(headerLines: seq<string>): (r: seq<string>)
    ensures r != [] && Join(r, "\n") == Join(headerLines, "\n")
  {
    if headerLines == [] then [""] else headerLines
  }

  /** The full summary is its lines joined by line breaks. */
  lemma SummaryJoin(headerLines: seq<string>, meta: seq<string>, summaries: seq<string>,
                    blocks: seq<seq<string>>)
    requires |summaries| == |blocks| && meta != []
    requires forall k :: 0 <= k < |blocks| ==> blocks[k] != []
    ensures FullSummary(Join(headerLines, "\n"), meta, summaries, blocks)
      == Join(SummaryLines(headerLines, meta, summaries, blocks), "\n")
  {
    var h := HeaderOrEmpty(headerLines);
    var q := meta + summaries + [""];
    var sec := BlockSummary.SectionLines(summaries, blocks);
    BlockSummary.SectionsJoin(q, summaries, blocks);
    JoinAppend(h, [""], "\n");
    JoinAppend(h + [""], q + sec, "\n");
    HeadRegroup(Join(h, "\n"), Join(q, "\n"), BlockSummary.Body(summaries, blocks));
  }

  lemma HeadRegroup(jh: string, jq: string, body: string)
    ensures jh + "\n" + "" + "\n" + (jq + body) == jh + "\n\n" + jq + body
  {
    assert "\n" + "\n" == "\n\n";
  }

  /** Splitting the full summary at line breaks gives its lines back, provided every
      summary is a single line. */
  lemma SummaryLinesOfRun(transcription: string, start: string, seconds: int, model: string,
                          promptType: string, summaries: seq<string>)
    requires var lines := Split(transcription, '\n');
      |summaries| == |BlockSummary.Windows(lines[ContentStart(lines)..], 0)|
    requires Unbroken(summaries)
    requires '\n' !in start && '\n' !in model && '\n' !in promptType
    ensures var lines := Split(transcription, '\n');
      var cs := ContentStart(lines);
      var blocks := BlockSummary.Windows(lines[cs..], 0);
      var meta := MetaLines(start, seconds, model, promptType);
      Split(FullSummary(Join(lines[..cs], "\n"), meta, summaries, blocks), '\n')
        == SummaryLines(lines[..cs], meta, summaries, blocks)
  {
    var lines := Split(transcription, '\n');
    var cs := ContentStart(lines);
    SplitPiecesFree(transcription, '\n');
    assert Unbroken(lines);
    UnbrokenSlice(lines, 0, cs);
    UnbrokenSlice(lines, cs, |lines|);
    assert lines[cs..|lines|] == lines[cs..];
    BlockSummary.WindowsUnbroken(lines[cs..]);
    MetaUnbroken(start, seconds, model, promptType);
    SummarySplit(lines[..cs], MetaLines(start, seconds, model, promptType), summaries,
                 BlockSummary.Windows(lines[cs..], 0));
  }

  lemma SummarySplit(headerLines: seq<string>, meta: seq<string>, summaries: seq<string>,
                     blocks: seq<seq<string>>)
    requires |summaries| == |blocks| && meta != []
    requires Unbroken(headerLines) && Unbroken(meta) && Unbroken(summaries)
    requires forall k :: 0 <= k < |blocks| ==> blocks[k] != [] && Unbroken(blocks[k])
    ensures Split(FullSummary(Join(headerLines, "\n"), meta, summaries, blocks), '\n')
      == SummaryLines(headerLines, meta, summaries, blocks)
  {
    SummaryJoin(headerLines, meta, summaries, blocks);
    SummaryLinesUnbroken(headerLines, meta, summaries, blocks);
    SplitJoin(SummaryLines(headerLines, meta, summaries, blocks), '\n');
  }

  lemma SummaryLinesUnbroken(headerLines: seq<string>, meta: seq<string>, summaries: seq<string>,
                             blocks: seq<seq<string>>)
    requires |summaries| == |blocks|
    requires Unbroken(headerLines) && Unbroken(meta) && Unbroken(summaries)
    requires forall k :: 0 <= k < |blocks| ==> Unbroken(blocks[k])
    ensures Unbroken(SummaryLines(headerLines, meta, summaries, blocks))
  {
    BlockSummary.SectionLinesUnbroken(summaries, blocks);
    var h := HeaderOrEmpty(headerLines);
    assert Unbroken([""]);
    UnbrokenAppend(h, [""]);
    UnbrokenAppend(meta, summaries);
    UnbrokenAppend(meta + summaries, [""]);
    UnbrokenAppend(meta + summaries + [""], BlockSummary.SectionLines(summaries, blocks));
    UnbrokenAppend(h + [""], meta + summaries + [""] + BlockSummary.SectionLines(summaries, blocks));
  }

  lemma MetaUnbroken(start: string, seconds: int, model: string, promptType: string)
    requires '\n' !in start && '\n' !in model && '\n' !in promptType
    ensures Unbroken(MetaLines(start, seconds, model, promptType))
  {
    BlockSummary.RuleUnbroken();
    BlockSummary.TitleUnbroken();
    BlockSummary.DigestTitleUnbroken();
    TagsUnbroken();
    NoBreakJoined("Start:   ", start);
    DurationUnbroken(seconds);
    NoBreakJoined("Dauer:   ", Helpers.FormatTimestamp(Some(seconds)));
    NoBreakJoined("Modell:  ", model);
    NoBreakJoined("Typ:     ", promptType);
    UnbrokenNine(BlockSummary.Rule(), "Zusammenfassung des Transkripts", BlockSummary.Rule(),
                 "Start:   " + start, "Dauer:   " + Helpers.FormatTimestamp(Some(seconds)),
                 "Modell:  " + model, "Typ:     " + promptType, "", "Gesamtzusammenfassung:");
  }

  lemma UnbrokenNine(a0: string, a1: string, a2: string, a3: string, a4: string, a5: string,
                     a6: string, a7: string, a8: string)
    requires '\n' !in a0 && '\n' !in a1 && '\n' !in a2 && '\n' !in a3 && '\n' !in a4
    requires '\n' !in a5 && '\n' !in a6 && '\n' !in a7 && '\n' !in a8
    ensures Unbroken([a0, a1, a2, a3, a4, a5, a6, a7, a8])
  {
  }

  lemma DurationUnbroken(seconds: int)
    ensures '\n' !in Helpers.FormatTimestamp(Some(seconds))
  {
    if seconds > 0 {
      var n: nat := seconds;
      var h, m, s := PadNat(n / 3600, 2), PadNat(n % 3600 / 60, 2), PadNat(n % 60, 2);
      DigitsUnbroken(h);
      DigitsUnbroken(m);
      DigitsUnbroken(s);
      assert Helpers.Clock(n) == h + ":" + m + ":" + s;
    } else {
      assert Helpers.FormatTimestamp(Some(seconds)) == "00:00:00";
    }
  }

  lemma TagsUnbroken()
    ensures '\n' !in "Start:   " && '\n' !in "Dauer:   " && '\n' !in "Modell:  "
    ensures '\n' !in "Typ:     "
  {
    StartTagUnbroken();
    DauerTagUnbroken();
    ModellTagUnbroken();
    TypTagUnbroken();
  }

  lemma StartTagUnbroken() ensures '\n' !in "Start:   " {}
  lemma DauerTagUnbroken() ensures '\n' !in "Dauer:   " {}
  lemma ModellTagUnbroken() ensures '\n' !in "Modell:  " {}
  lemma TypTagUnbroken() ensures '\n' !in "Typ:     " {}
}
