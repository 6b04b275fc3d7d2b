# MP3 transcriber — a Dafny model of its core

The MP3 transcriber is a web application. It turns MP3 recordings into German text transcripts
with a Whisper worker, then condenses those transcripts with a language model into
overlapping blocks of summaries. It has five parts:

- an Express server, whose routes handle uploads, files, users, transcriptions, password-based public access, and remote (RunPod) or local (WSL worker) transcription and summarisation;
- a React client, whose transcript view shows, edits and saves timestamped lines and whose export dialog filters and prints them;
- a local FastAPI service (`local-ai-service/main.py`), which runs the workers and streams their progress as server-sent events;
- the worker scripts `base-data/transcribe.py` and `base-data/summarize.py`, which write the transcript and summary files;
- small shared helpers for timestamps, short ids and file types.

This project models the decision logic and the text processing of those parts:

- timestamps;
- transcript layout and header assembly;
- block windowing and summary clean-up;
- server-sent event streams, with progress classifiers and temp-file clean-up;
- route validation orders and status codes;
- ownership and admin rules;
- the dynamic SQL `UPDATE` builders;
- the transcript view's duplicate removal, current-line search and edit saving;
- the export filter and HTML line classification;
- the sort and filter code of the admin screens.

There is one Dafny module per source file, plus `StrUtil`. `StrUtil` holds the string
operations that JavaScript and Python provide as built-ins, with their own properties proved:

- splitting and joining, with their round trip;
- trimming with each language's whitespace set;
- replace-all;
- lowercasing;
- prefix, suffix and containment tests.

Where a source file works by changing state step by step, the model does the same: loops
that append events or build strings become methods with loop invariants, and the `UPDATE`
builders become a class whose fields are the pushed clauses and values. Each of these is
proved against a specification function, and the properties are proved about that function.

Databases, the file system, worker processes, cryptography and randomness do not appear as
such. Their answers are parameters:

- a lookup result;
- an "exists" flag;
- a worker outcome record (stdout lines, stderr text, exit code, whether the result file exists, its text);
- a uuid;
- a chosen alphabet index.

## Model

| member | source | states |
|---|---|---|
| Helpers.FormatTimestamp | client/src/utils/helpers.js:46-54 | a missing, zero or negative number of seconds is shown as "00:00:00" |
| Helpers.RemoveBracketsSpec | client/src/utils/helpers.js:26 | no bracket survives the clean-up, and text without brackets is left as it is |
| Helpers.ParseWithoutBrackets | client/src/utils/helpers.js:22-28 | a stamp without brackets is read from its ':'-separated parts |
| Helpers.ParseThreeParts | client/src/utils/helpers.js:26-32 | three colon-free fields joined by ':' are read as hours, minutes and seconds |
| Helpers.ParseNumberParts | client/src/utils/helpers.js:30-32 | three parts reading as x, y and z give x*3600 + y*60 + z seconds |
| Helpers.ParseFormatRoundTrip | client/src/utils/helpers.js:22-54 | parsing the formatted time of any natural number of seconds gives that number back |
| Helpers.ExtractTimestamps | client/src/utils/helpers.js:126-142 | the entries are those of the lines of `text.split('\n')` that match, one per line, in order |
| Helpers.Entries | client/src/utils/helpers.js:130-139 | no more entries than lines |
| Helpers.MatchTailSound | client/src/utils/helpers.js:131 | the text captured after the stamp is a split of the rest that `\s*(.+)$` allows |
| Helpers.MatchTailMaximal | client/src/utils/helpers.js:131 | whenever the regex tail can match, the capture succeeds and starts at the earliest split it allows |
| Helpers.EntriesWellFormed | client/src/utils/helpers.js:126-142 | every entry has a two-digit `hh:mm:ss` stamp, the seconds parseTimestamp gives for it, and non-empty text without line terminators |
| Helpers.WellFormedSeconds | client/src/utils/helpers.js:135 | an entry's seconds are parseTimestamp of its stamp |
| Helpers.StampSeconds | client/src/utils/helpers.js:22-32 | parseTimestamp reads a `hh:mm:ss` stamp as hh*3600 + mm*60 + ss |
| Helpers.CarriageReturnLineSkipped | client/src/utils/helpers.js:127-131 | a CRLF line (text ending in a carriage return) yields no entry |
| Helpers.BareStampSkipped | client/src/utils/helpers.js:131 | a line holding only its stamp yields no entry |
| Helpers.UpperCaseExtensionAccepted | client/src/utils/helpers.js:149-176 | a name ending in ".MP3" or ".TXT" passes the MP3 or text check whatever its MIME type |
| LocalService.ApiKeyStatus | local-ai-service/main.py:54-57 | the request may proceed exactly when no key is configured or the given key equals it; otherwise the status is 401 |
| LocalService.StripAnsi | local-ai-service/main.py:63-65 | stripping never lengthens the text |
| LocalService.StripAnsiNoEscape | local-ai-service/main.py:63-65 | text without an ESC character is returned unchanged |
| LocalService.StripAnsiKeepsPlain | local-ai-service/main.py:63-65 | every character that cannot belong to a control sequence survives, in order |
| LocalService.StripAnsiNotIdempotent | local-ai-service/main.py:63-65 | deleting one sequence can join the pieces of another, so a second pass can still change the text |
| LocalService.SequenceLength | local-ai-service/main.py:65 | a match is ESC, '[', a run of digits and ';', and one final letter out of m, G, K, H, f |
| LocalService.EscapeRoundTrip | local-ai-service/main.py:68-70 | decoding the JSON string escape gives back every string |
| LocalService.EscapeNoBreak | local-ai-service/main.py:68-70 | escaped text holds no raw CR or LF |
| LocalService.MembersNoBreak | local-ai-service/main.py:68-70 | the JSON object's members hold no raw line break |
| LocalService.SseEventIsOneEvent | local-ai-service/main.py:68-70 | each event text starts with "data: ", ends with a blank line, and has no other line break, so it is exactly one server-sent event |
| LocalService.StemSuffix | local-ai-service/main.py:222-223 | stem and suffix put back together give the name; a suffix is a dot, at least one more character, and follows a non-empty stem |
| LocalService.Sanitize | local-ai-service/main.py:221 | every character outside `[A-Za-z0-9._-]` becomes '_' and the rest are kept, position by position |
| LocalService.SanitizeSafe | local-ai-service/main.py:221 | the result holds only safe characters, safe text is left as it is, and a second pass changes nothing |
| LocalService.TempNameRoundTrip | local-ai-service/main.py:269-270 | "stem_temp.ext" is recognised as a temp file and its display name is "stem.ext" |
| LocalService.UploadRoundTrip | local-ai-service/main.py:221-237 | an upload with an extension is stored under a temp name whose display name is the reported `originalFilename` |
| LocalService.SafeRoundTrip | local-ai-service/main.py:222-224 | a sanitised name with a suffix, once `_temp` is inserted, is a temp name whose display name is that name |
| LocalService.SafeNameIsName | local-ai-service/main.py:221-223 | a name of safe characters other than "." is its own path name |
| LocalService.BareTempStem | local-ai-service/main.py:269-270 | the two patterns disagree on "_temp.mp3": not a temp file, yet its display name is ".mp3" |
| LocalService.ListFilesMembers | local-ai-service/main.py:167-178 | a name is listed exactly when it is in the directory and has the requested type; summary files ("_s.txt" in any case) never appear in a txt listing |
| LocalService.KeepListed | local-ai-service/main.py:169-176 | the listing is no longer than the directory |
| LocalService.ClassifyRange | local-ai-service/main.py:310-315 | the classifier always yields 20 or one of the table's values |
| LocalService.TranscribeFirstPhraseWins | local-ai-service/main.py:311-315 | with `elif`, a line naming "Lade Modell" reports 30 whatever else it names |
| LocalService.ProcessingPerLine | local-ai-service/main.py:305-319 | processing events correspond one to one, in order, to the non-blank stdout lines, and carry the stripped line without control sequences |
| LocalService.OutputNotTerminal | local-ai-service/main.py:305-328 | draining the worker's output yields progress events only |
| LocalService.DrainOutput | local-ai-service/main.py:305-328 | the stream reads the stdout lines, then the stderr pieces, giving the events the specification functions describe |
| LocalService.DrainLines | local-ai-service/main.py:305-319 | the stdout loop yields one processing event per non-blank line |
| LocalService.DrainPieces | local-ai-service/main.py:321-328 | the stderr loop yields one warning event per non-blank piece of `split('\n')` |
| LocalService.StreamShape | local-ai-service/main.py:272-377 | opening events, drained output and one terminal event make a stream whose only terminal event is the last |
| LocalService.TranscribeFinish | local-ai-service/main.py:330-377 | a non-zero exit ends with the failure carrying the exit code; a missing transcript with "Transkriptionsdatei wurde nicht erstellt"; otherwise the complete event with the transcript, display names and duration; the temp MP3 is deleted when present and the temp transcript only on success |
| LocalService.Unlink | local-ai-service/main.py:334-335 | a temp file still present is deleted and reported; anything else is left |
| LocalService.Transcribe | local-ai-service/main.py:246-379 | 401 exactly when the key check fails, 404 exactly when it passes and the MP3 is missing, otherwise 200 with the stream; nothing is streamed or deleted before 200, and a non-temp input is never deleted |
| LocalService.TranscribeStream | local-ai-service/main.py:272-377 | init with the display name, the WSL event, the worker's output, then exactly one terminal event |
| LocalService.TranscribeTempInputDeleted | local-ai-service/main.py:333-335 | a temp MP3 is deleted whatever the exit code |
| LocalService.SummarizeFinish | local-ai-service/main.py:506-551 | the temp input is deleted before the exit code is read; a non-zero exit, a missing summary and success end the stream as the source writes them, with the mode flag on success; the temp summary is deleted only on success |
| LocalService.Summarize | local-ai-service/main.py:386-553 | 401 exactly when the key check fails; otherwise one stream whose only terminal event is the last; neither input gives one error event; a named file is never deleted |
| LocalService.SummarizeStream | local-ai-service/main.py:397-551 | a missing named file ends after its init event with "TXT-Datei nicht gefunden"; otherwise the worker runs on the chosen input and the last event is a failure with the exit code exactly on a non-zero exit, "complete" exactly on exit 0 with `<stem>_s.txt` present, and otherwise "Summary-Datei wurde nicht erstellt" without exit code; only a temp input and its summary are ever deleted |
| LocalService.SummarizeRun | local-ai-service/main.py:441-551 | init, config with the mode message, the WSL event, the worker's output, then one terminal event: a failure with the exit code exactly on a non-zero exit, complete exactly when the summary was found, the missing-summary error without exit code otherwise |
| TranscribePy.FormatTimestampRoundTrip | base-data/transcribe.py:77-83 | a missing time is written "None"; any whole number of seconds is written so that the client's timestamp parser reads back the same number |
| TranscribePy.ClockIsStamp | base-data/transcribe.py:77-83 | the written time has the `dd:dd:dd` shape exactly when it is below 100 hours |
| TranscribePy.StampTest | base-data/transcribe.py:283-286 | a segment's line passes the `^\[\d{2}:\d{2}:\d{2}\] ` test exactly when the segment has a start below 100 hours; the first 11 characters are then the bracketed time and the rest is the segment text |
| TranscribePy.LongClockNoStamp | base-data/transcribe.py:80-83 | from 100 hours on the hour field has three digits and the line fails the stamp test |
| TranscribePy.SegmentKept | base-data/transcribe.py:283-292 | a kept segment gives its stamp with the first wrapped piece, then every further piece indented by twelve blanks |
| TranscribePy.SegmentDropped | base-data/transcribe.py:283-292 | a segment without a start, or starting at 100 hours or later, adds nothing to the transcript |
| TranscribePy.StampedLineReadBack | base-data/transcribe.py:283-290 | a stamped first line is read back by the client's timestamp extraction as the segment's start and first piece |
| TranscribePy.ContinuationNotRead | base-data/transcribe.py:291-292 | an indented continuation line is never read back as a timestamp line |
| TranscribePy.FormatTranscription | base-data/transcribe.py:265-296 | the text is the seven header lines, three more line breaks, then the lines of every segment in order, each ended by a line break |
| TranscribePy.AppendSegment | base-data/transcribe.py:282-292 | one pass of the segment loop appends exactly that segment's lines |
| TranscribePy.AppendPieces | base-data/transcribe.py:289-292 | the stamp with the first piece, then each further piece indented, each with its break |
| TranscribePy.TranscriptLines | base-data/transcribe.py:268-296 | with line-free header values, splitting the file at line breaks gives back the header lines, three empty lines, the segment lines and a final empty piece |
| TranscribePy.CorrectTranscription | base-data/transcribe.py:301-308 | the text with every occurrence of each wrong spelling replaced, the two corrections applied in table order |
| TranscribePy.CorrectedAbsent | base-data/transcribe.py:306-307 | a text holding none of the wrong spellings comes back unchanged |
| TranscribePy.CorrectionsAbsent | base-data/transcribe.py:302-307 | the same for the transcriber's own two corrections |
| TranscribePy.OutputNameOfMp3 | base-data/transcribe.py:141-142 | the transcript of "stem.mp3" is "stem.txt" |
| BlockSummary.FormatTimestampRoundTrip | base-data/summarize.py:76-82 | a non-positive time is eight blanks; a positive one reads back as the same number of seconds |
| BlockSummary.FirstBlank | base-data/summarize.py:198 | the index found is the first empty line: every earlier line is non-empty, and none at all is reported only when no line is empty |
| BlockSummary.HeaderThenContent | base-data/summarize.py:197-199 | header and content together are the whole transcript; the header ends with its first empty line, or is the first seven lines when there is none |
| BlockSummary.SplitBlocks | base-data/summarize.py:200-204 | the blocks are the non-empty windows starting every ten lines, in order |
| BlockSummary.WindowsShape | base-data/summarize.py:194-204 | there are ceil(n/10) blocks; block k holds lines 10k up to 10k+20, clipped at the end |
| BlockSummary.BlocksOfContent | base-data/summarize.py:201-204 | block k starts inside the content, is exactly its slice of up to twenty lines, and is never empty |
| BlockSummary.NoBlocksIffEmpty | base-data/summarize.py:201-204 | no block at all exactly when there is no content |
| BlockSummary.TwentyFiveLines | base-data/summarize.py:201-204 | an illustration of WindowsShape on one size: 25 content lines give blocks at 0, 10 and 20, and the third lies inside the second |
| BlockSummary.CoverageOneOrTwo | base-data/summarize.py:194-202 | every content line lies in one block, or from line 10 on in two consecutive ones, and in no other |
| BlockSummary.CoversIsWindow | base-data/summarize.py:201-204 | the covering relation agrees with the blocks actually built |
| BlockSummary.RemoveStamps | base-data/summarize.py:233 | deleting the stamp tokens never lengthens the line |
| BlockSummary.RemoveStampsPlain | base-data/summarize.py:233 | text without '[' is kept as it is |
| BlockSummary.StampedLineText | base-data/summarize.py:233 | a stamped line contributes exactly its text |
| BlockSummary.ContinuationExcluded | base-data/summarize.py:233 | an indented continuation line adds nothing to the text sent to the model |
| BlockSummary.NoStampNoText | base-data/summarize.py:233 | a block without stamped lines sends an empty text |
| BlockSummary.FirstSentenceShape | base-data/summarize.py:273-276 | the first sentence ends with a period and holds no other |
| BlockSummary.FirstCut | base-data/summarize.py:279 | the cut is the leftmost position where an artefact marker (optionally after a period) starts |
| BlockSummary.CutMarkersClean | base-data/summarize.py:279 | after the cut no marker is left anywhere in the text |
| BlockSummary.Collapse | base-data/summarize.py:282 | collapsing white-space runs never lengthens the text |
| BlockSummary.CollapseKeepsWords | base-data/summarize.py:282 | collapsing keeps every non-white character in order |
| BlockSummary.SqueezeShape | base-data/summarize.py:282 | the final summary is single-spaced, has no white space at either end and no line break |
| BlockSummary.CleanupEmptyAtMarker | base-data/summarize.py:273-282 | a first sentence that opens with a marker leaves an empty summary, although step one ended it with a period |
| BlockSummary.SystemContent | base-data/summarize.py:209-226 | the group prompt exactly for "newsletter", the personal prompt otherwise |
| BlockSummary.PromptType | base-data/summarize.py:388-395 | "newsletter" exactly when the flag is given or the lower-cased base name mentions it; "durchgabe" otherwise |
| BlockSummary.DurchgabeFlagIgnored | base-data/summarize.py:377-395 | the -durchgabe flag changes nothing, and cannot override a file name mentioning the newsletter |
| BlockSummary.Unprompted | base-data/summarize.py:264-269 | an echoed prompt is removed from the stripped output, which is otherwise kept |
| BlockSummary.Summaries | base-data/summarize.py:232-296 | one summary per block |
| BlockSummary.SummariesAt | base-data/summarize.py:232-296 | summary k is the summary of block k |
| BlockSummary.SummarizeBlocks | base-data/summarize.py:232-297 | the loop gives the summaries in block order and the body of headed blocks |
| BlockSummary.SummarizeTranscription | base-data/summarize.py:161-331 | the document is the banner, the transcript header, the metadata, the joined summaries and the headed blocks, built from the windows of the content |
| BlockSummary.DocumentLinesOfRun | base-data/summarize.py:308-328 | read back line by line, the document has one digest line per block summary, then the blocks each under its heading |
| BlockSummary.OutputNameOfText | base-data/summarize.py:144-145 | "stem.txt" is summarised into "stem_s.txt" |
| BlockSummary.OutputNameOfDotFile | base-data/summarize.py:144-145 | a name whose only dot opens it is kept whole: ".txt" becomes ".txt_s.txt" |
| SummarizeJs.FormatTimestampCases | server/routes/summarize.js:14-20 | a missing, zero or negative duration is "00:00:00"; any other reads back as the same number of seconds |
| SummarizeJs.FirstFromNone | server/routes/summarize.js:30-35 | the scan finds nothing exactly when no line from the start index on qualifies |
| SummarizeJs.FirstFromSome | server/routes/summarize.js:30-35 | a line found qualifies and no earlier line from the start index does |
| SummarizeJs.ContentStartSpec | server/routes/summarize.js:29-35 | the content starts right after the first blank line past the first line; with none it starts at 0 and the header is empty |
| SummarizeJs.FindContentStart | server/routes/summarize.js:29-35 | the loop finds that content start |
| SummarizeJs.SplitIntoBlocks | server/routes/summarize.js:25-49 | the header is the lines before the content joined again, and the blocks are the twenty-line windows of the content with stride ten |
| SummarizeJs.BlocksNonEmpty | server/routes/summarize.js:41-46 | every block is non-empty and block k holds content lines 10k up to 10k+20 |
| SummarizeJs.RemoveStampRuns | server/routes/summarize.js:83 | deleting the stamps and the white space after them never lengthens the text |
| SummarizeJs.RemoveStampRunsPrefix | server/routes/summarize.js:83 | text without '[' passes through unchanged in front of the rest |
| SummarizeJs.BlockOfStampedLines | server/routes/summarize.js:83 | a block of stamped lines reaches the model as the lines' texts joined by single blanks |
| SummarizeJs.ContinuationIncluded | server/routes/summarize.js:83 | an indented continuation line is part of the text sent to the model |
| SummarizeJs.SystemContentChoice | server/routes/summarize.js:62-79 | the group prompt exactly when the prompt type is "newsletter"; a name inherited from Object.prototype ("constructor", "toString", "__proto__", ...) selects that inherited value, which is truthy and so kept; a missing type means "durchgabe", and any other type falls back to the personal prompt |
| SummarizeJs.ConstructorPromptInherited | server/routes/summarize.js:79 | the prompt type "constructor" does not fall back: the inherited Object constructor is chosen as the prompt |
| SummarizeJs.ArtifactLength | server/routes/summarize.js:115 | an artefact match found at the front spans at least two characters and stays inside the text |
| SummarizeJs.CleanupEndsWithPeriod | server/routes/summarize.js:109-116 | every cleaned summary ends with '.', so none is empty |
| SummarizeJs.MarkerDeleted | server/routes/summarize.js:115 | a marker word is deleted and the text after it is kept |
| SummarizeJs.RemoveArtifactsPlain | server/routes/summarize.js:115 | text in which no artefact starts is left as it is |
| SummarizeJs.FirstFailureSpec | server/routes/summarize.js:156-172 | no failure exactly when every model call succeeds; otherwise the failure is that of the earliest failing block |
| SummarizeJs.FirstFailurePrefix | server/routes/summarize.js:156-172 | a failure among the first blocks is the failure of the whole run |
| SummarizeJs.SummarizeAll | server/routes/summarize.js:153-172 | with blocks and no endpoint the run fails with the configuration message; otherwise the first failing call ends it with "Zusammenfassung fehlgeschlagen: ", and without failure the summaries and the body are those of every block in order |
| SummarizeJs.ProgressStep | server/routes/summarize.js:166-169 | an answered call appends its summary and its headed block |
| SummarizeJs.FailureEnds | server/routes/summarize.js:166-222 | a failing call is the first failure of the run |
| SummarizeJs.ProgressDone | server/routes/summarize.js:156-172 | a loop that reaches the end saw no failure and built all summaries and the whole body |
| SummarizeJs.NoContentNoCall | server/routes/summarize.js:41-172 | a transcript without content needs no model call, so a missing endpoint does not matter |
| SummarizeJs.Summarize | server/routes/summarize.js:126-224 | 400 "Keine Transkription angegeben" for a missing or empty transcription; otherwise the outcome of summarising every block, 500 with the error message on the first failure |
| SummarizeJs.HeaderOrEmpty | server/routes/summarize.js:37 | an empty header still reads back as one empty line |
| SummarizeJs.SummaryLinesOfRun | server/routes/summarize.js:179-193 | read back line by line, the full summary has one digest line per block, provided every summary is one line |
| TranscribeJs.Lines | server/routes/transcribe.js:34-38 | one line per segment |
| TranscribeJs.LinesAt | server/routes/transcribe.js:34-38 | line k is the stamp of segment k's start and its trimmed text |
| TranscribeJs.FormatTranscription | server/routes/transcribe.js:28-41 | nothing for no segments; otherwise every segment's line followed by a line break, in segment order |
| TranscribeJs.TranscriptionLines | server/routes/transcribe.js:28-41 | with single-line texts the transcription splits into exactly one line per segment and the empty piece after the last break |
| TranscribeJs.LineReadBack | server/routes/transcribe.js:35-37 | the client's timestamp extraction reads each line back as its stamp, its seconds (0 for a missing or non-positive start) and its trimmed text, below 100 hours |
| TranscribeJs.ResolvePathCases | server/routes/transcribe.js:136-142 | a path that is absolute under the Windows rules of `path.isAbsolute` (a leading separator, or a drive letter, a colon and a separator) is used as given; any other keeps only its last component after the last '/' or '\\', inside UPLOAD_DIR or "./uploads" when that is unset or empty |
| TranscribeJs.DrivePathGiven | server/routes/transcribe.js:135-137 | a local file given by its drive path with backslashes is used as it is, not looked up in the upload directory |
| TranscribeJs.PlainNameUploaded | server/routes/transcribe.js:138-142 | a bare file name is looked up under that name in the upload directory |
| TranscribeJs.Transcribe | server/routes/transcribe.js:123-202 | 400 "Kein Dateipfad angegeben" without a path, 404 "Audio-Datei nicht gefunden" when the file is absent, 500 "Transkription fehlgeschlagen: ..." or the configuration message when the call cannot be made or fails, otherwise the header followed by the formatted segments |
| TranscribeJs.RejectedBeforeCall | server/routes/transcribe.js:129-146 | a missing path or a missing file is answered before the Whisper call, whatever that call would return |
| TranscribeJs.TranscriptLines | server/routes/transcribe.js:161-170 | read back line by line: the four header lines, one empty line, one line per segment and the empty piece after the final break |
| WslRoute.ClassifySummarizeLine | server/routes/summarize-local.js:108-115 | the progress of a summariser line is 20, overwritten in order by every phrase the line contains |
| WslRoute.ClassifyTranscribeLine | server/routes/transcribe-local.js:76-81 | the progress of a transcriber line is 20, overwritten in order by every phrase the line contains |
| WslRoute.SummarizeLastPhraseWins | server/routes/summarize-local.js:113-115 | a line naming both a heading and the final save reports 95: the later test overrides the earlier one |
| WslRoute.TranscribeClassifiersDisagree | server/routes/transcribe-local.js:77-78 | on a line naming both the model load and its completion this route reports 50 where the local service reports 30 |
| WslRoute.SequentialIfsRange | server/routes/summarize-local.js:108-115 | every progress a classifier gives is one of 20, 30, 40, 50, 60, 70, 90 and 95 |
| WslRoute.HandleOut | server/routes/summarize-local.js:97-120 | a stdout chunk gives one 'processing' event per non-blank line, in order |
| WslRoute.HandleLine | server/routes/summarize-local.js:103-118 | a blank line gives nothing; any other gives its ANSI-free text with its classified progress |
| WslRoute.Drain | server/routes/transcribe-local.js:59-96 | the events of every chunk in order, and both buffers holding the whole stdout and stderr |
| WslRoute.StreamActionsStreaming | server/routes/summarize-local.js:97-130 | the streamed events are only 'processing' and 'warning' events with the classifier's progress values, and none of them ends the client's wait |
| WslRoute.EventsNoTerminal | server/routes/summarize-local.js:33-36 | dropping the file operations from a log without a terminal event leaves none |
| WslRoute.RunEndsOnce | server/routes/summarize-local.js:133-224 | events before the close handler followed by a handler whose events end once still end once, with the handler's last event last |
| WslRoute.ConcludesOne | server/routes/transcribe-local.js:152-161 | a single terminal event ends the run, as a delivery exactly when it is the result |
| WslRoute.ConcludesAfterProgress | server/routes/transcribe-local.js:114 | a progress event that is not an error, in front of a concluded run, keeps it concluded |
| WslRoute.ConcludesAfterRun | server/routes/transcribe-local.js:47-149 | a stream without terminal events in front of a concluded close handler keeps the run concluded |
| SummarizeLocal.PrepareInput | server/routes/summarize-local.js:23-69 | 400 without a socket id; a non-blank transcription is written to the temp file; otherwise a named file is used if it exists, 404 if not, and 400 without either |
| SummarizeLocal.Close | server/routes/summarize-local.js:133-224 | the close or error handler's events, answer and files, as the whole finish of the run |
| SummarizeLocal.DeleteTemp | server/routes/summarize-local.js:137-144 | the temp input is deleted when it was made and is still there; nothing else changes |
| SummarizeLocal.CheckExit | server/routes/summarize-local.js:146-202 | a non-zero or missing exit code gives 500 with both buffers; a missing summary file gives 500 with the expected name; otherwise the summary is returned and, for a temp input, deleted |
| SummarizeLocal.Summarize | server/routes/summarize-local.js:19-233 | the answer, events and files of the whole request, as the model of the route computes them |
| SummarizeLocal.TurnedAway | server/routes/summarize-local.js:25-69 | a request is stopped before the worker exactly when it has no socket id or neither a usable transcription nor an existing file; then nothing on disk changes, no event ends the client's wait, and 404 comes only for a named missing file |
| SummarizeLocal.InputChoice | server/routes/summarize-local.js:41-65 | a non-blank transcription wins over a file name and is written first; otherwise the named file is used and nothing is written |
| SummarizeLocal.TempInputIsDurchgabe | server/routes/summarize-local.js:46-82 | a transcription sent directly is always summarised in durchgabe mode: the temp name never mentions the newsletter |
| SummarizeLocal.TempInputRemoved | server/routes/summarize-local.js:137-144 | the temp input is gone once the worker has ended, however it ended, and deleting it is the close handler's first action |
| SummarizeLocal.NamedFileKept | server/routes/summarize-local.js:137-183 | a file named in the request is never deleted, nor is anything else |
| SummarizeLocal.SummaryKeptUnlessTemp | server/routes/summarize-local.js:176-183 | on success the summary file stays exactly when it was made from a named file |
| SummarizeLocal.OneTerminalEvent | server/routes/summarize-local.js:87-224 | once the worker is started, exactly one terminal event reaches the client and it is the last; the answer is 200 exactly when it is the result |
| SummarizeLocal.FinishEndsOnce | server/routes/summarize-local.js:133-224 | the close and error handlers each end the client's wait exactly once |
| TranscribeLocal.Transcribe | server/routes/transcribe-local.js:18-170 | the answer and events of the whole request: the three checks, the start events, the streamed output and the close or error handler; with the `AsWritten` naming the transcript is looked up as `path.basename(filename, '.mp3') + '.txt'`, as the route does |
| TranscribeLocal.Close | server/routes/transcribe-local.js:99-161 | a spawn error gives one 'WSL-Fehler' event and 500; a non-zero exit gives an error event and 500 with both buffers; a missing transcript gives 'loading', an error and 500 with the expected name; otherwise 'loading', 'complete' and the result; the transcript name is the route's own for `AsWritten` |
| TranscribeLocal.ValidationOrder | server/routes/transcribe-local.js:24-36 | the worker starts exactly when the file name and socket id are given and the file exists; a missing file name is reported first, then a missing socket id, then 404, all before any event |
| TranscribeLocal.NeverTouchesFiles | server/routes/transcribe-local.js:18-170 | the route never writes or deletes a file: every entry of its log is a socket event |
| TranscribeLocal.CloseOutcome | server/routes/transcribe-local.js:102-148 | for whatever transcript name is looked up (the route's own included): 200 exactly when the worker exited with 0 and that transcript exists; then it is delivered under that name with the MP3 name, and a non-zero exit gives the exit code with both buffers |
| TranscribeLocal.OneTerminalEvent | server/routes/transcribe-local.js:47-161 | once the worker is started exactly one terminal event reaches the client and it is the last; the answer is 200 exactly when it is the result |
| TranscribeLocal.FinishConcludes | server/routes/transcribe-local.js:99-161 | each outcome of the close and error handlers ends the client's wait exactly once |
| TranscribeLocal.ResultNameCaseSensitive | server/routes/transcribe-local.js:117-118 | the route as written finds "stem.txt" for "stem.mp3" but looks for "stem.MP3.txt" for any other spelling of the extension |
| TranscribeLocal.ResultNameMissesOtherCase | server/routes/transcribe-local.js:117-118 | for every spelling other than ".mp3" the worker writes "stem.txt" while the route as written looks for another name |
| TranscribeLocal.IntendedResultNameMatchesWorker | base-data/transcribe.py:141-142 | the corrected name is the worker's for every spelling of ".mp3", and the route's own for the lower-case one |
| TranscribeLocal.WorkerTranscriptDelivered | server/routes/transcribe-local.js:114-148 | with the corrected name, a worker that exits with 0 after writing its transcript is answered with that transcript, whatever the case of the extension |
| TranscribeLocal.UpperCaseTranscriptMissing | server/routes/transcribe-local.js:114-126 | the route as written answers a successful worker run on "stem.MP3" with 500 and "stem.MP3.txt" as the missing transcript |
| ShortId.AlphabetChar | server/utils/generateShortId.js:13 | every character of the id alphabet is a digit or a lower-case letter, and the first ten are exactly the digits |
| ShortId.GenerateShortId | server/utils/generateShortId.js:12-30 | the id is the prefix when it is truthy (else one drawn character) followed by exactly five drawn alphabet characters, in drawing order |
| ShortId.GenerateUserId | server/utils/generateShortId.js:36-40 | a generated user id has valid format, has the user pattern and not the MP3 pattern |
| ShortId.GenerateMp3Id | server/utils/generateShortId.js:46-50 | a generated MP3 id has valid format, has the MP3 pattern and not the user pattern |
| ShortId.GeneratedValid | server/utils/generateShortId.js:12-50 | a one-character alphabet prefix and five drawn characters make a valid id, a user id exactly when the prefix is a digit |
| ShortId.PrefixLength | server/utils/generateShortId.js:17-27 | the prefix is kept whole, so the id has six characters only for a one-character prefix |
| ShortId.ExactlyOneKind | server/utils/generateShortId.js:57-81 | every id of valid format has exactly one of the user and MP3 patterns |
| ShortId.PatternIgnoresRest | server/utils/generateShortId.js:57-61 | the user pattern looks only at the length and the first character: "1ABCDE" has it without being of valid format |
| ShortId.IsValidIdFormat | server/utils/generateShortId.js:79-81 | an id has valid format exactly when it has six characters, all from the id alphabet [0-9a-z] |
| ShortId.IsUserIdPattern | server/utils/generateShortId.js:57-61 | an id has the user pattern exactly when it has six characters and the first is one of the ten digits |
| ShortId.IsMp3IdPattern | server/utils/generateShortId.js:68-72 | an id has the MP3 pattern exactly when it has six characters and the first is one of the letters a-z |
| ShortId.AlphabetMembers | server/utils/generateShortId.js:13 | the id alphabet holds exactly the digits and the lower-case letters, the digits first |
| Auth.Token | server/middleware/auth.js:68 | the token is what follows the "Bearer " prefix: prefix and token give back the header |
| Auth.AuthenticateOptional | server/middleware/auth.js:36-52 | always goes on to the next handler; the user is replaced by the decoded claims exactly when a bearer token verifies, and is left as it was otherwise |
| Auth.Authenticate | server/middleware/auth.js:57-81 | goes on exactly when a bearer header is present and its token verifies, with the decoded claims as the user; every other request gets 401, with the login message when the header is missing or lacks the prefix |
| Auth.RequireAdmin | server/middleware/auth.js:86-102 | goes on exactly for an administrator; 401 without a user, 403 for a user who is not an administrator |
| Auth.TokenOfBearer | server/middleware/auth.js:61-68 | for every token, "Bearer " + token is a bearer header whose token is that token |
| Auth.LowerCaseSchemeRejected | server/middleware/auth.js:61 | the prefix test is case-sensitive: "bearer " is answered with 401 even when every token verifies |
| Auth.OptionalAgreesWithRequired | server/middleware/auth.js:36-81 | where the required check lets a request through, the optional one sets the same user; where it answers 401, the optional one goes on with the user unchanged |
| Auth.AdminChain | server/middleware/auth.js:57-102 | the required check followed by the administrator check passes exactly for a verified administrator token and answers 403 exactly for a verified token of anybody else |
| LocalFiles.Filtered | server/routes/local-files.js:31-41 | the listed entries are a sub-multiset of the directory, each with a lower-cased ".mp3" name, or for txt a ".txt" name that does not end in "_s.txt" |
| LocalFiles.InsertMultiset | server/routes/local-files.js:59 | one insertion step of the sort adds exactly the inserted entry |
| LocalFiles.InsertMembers | server/routes/local-files.js:59 | after an insertion step every entry is the inserted one or was already there |
| LocalFiles.InsertSorted | server/routes/local-files.js:59 | an insertion step keeps the list newest first |
| LocalFiles.SortNewestFirst | server/routes/local-files.js:59 | the sort gives a permutation of its input ordered by modification time, newest first |
| LocalFiles.List | server/routes/local-files.js:14-72 | 404 exactly when the directory is missing; 400 exactly for a type other than mp3 and txt (a missing type means mp3); otherwise the listed files are a permutation of the filtered entries, newest first, and the count is their number |
| LocalFiles.CountEnding | server/routes/local-files.js:95-96 | a count of names is never more than the number of names |
| LocalFiles.DirInfo | server/routes/local-files.js:81-106 | the info is present exactly when the directory exists, and then its total is the number of names |
| LocalFiles.ListedExactly | server/routes/local-files.js:31-41 | every entry whose name passes the type's filter is listed as often as it occurs in the directory, and no other entry is listed |
| LocalFiles.Mp3CountAgrees | server/routes/local-files.js:31-33 | the number of MP3 files counted by /info is the length of the mp3 listing |
| LocalFiles.TxtCountIncludesSummaries | server/routes/local-files.js:34-41 | /info counts as text files the txt listing plus every "_s.txt" summary |
| LocalFiles.SummaryCountedNotListed | server/routes/local-files.js:96 | a summary such as "Talk_s.txt" is counted by /info and absent from the txt listing |
| Upload.FileSizeLimit | server/routes/upload.js:45 | the configured limit is used when it parses to a non-zero number; NaN and 0 give 100 MB |
| Upload.NodeExtname | server/routes/upload.js:31 | the extension is empty or a dot followed by dot-free text that ends the final path component and is shorter than it |
| Upload.Upload | server/routes/upload.js:20-88 | the file is stored exactly when one is sent, the filter accepts it and it is within the size limit; then its name is uuid + "-" + the original name and its url "/api/files/" + that name; no file gives 400, a rejected type 500, a too large file 400 'Datei zu groß' |
| Upload.StoredNameRoundTrip | server/routes/upload.js:20-23 | the stored name starts with the uuid and gives back the original name after the dash, so it ends with the original name |
| Upload.DistinctUuidsDistinctNames | server/routes/upload.js:20-23 | uploads with different uuids of the same length never share a stored name or a url |
| Upload.ExtnameOf | server/routes/upload.js:31 | a non-empty stem without '/' followed by a dotted extension has exactly that extension |
| Upload.DotFileHasNoExtension | server/routes/upload.js:31 | a dot-file such as ".mp3" has no extension |
| Upload.UpperCaseExtensionAccepted | server/routes/upload.js:31-33 | the extension test ignores letter case: a name ending in ".MP3" is accepted whatever the MIME type |
| Upload.DotFileRejectedHere | server/routes/upload.js:27-38 | a dot-file ".mp3" with another MIME type is rejected with 500, although the client helper accepts it |
| Upload.AcceptedLikeHelpers | server/routes/upload.js:27-38 | for names without '/' that are longer than their extension, the filter accepts exactly what the client's isValidMP3 or isValidTextFile accepts |
| StrUtil.FilterAppend | client/src/components/ExportModal.js:19-22 | filtering the lines of two texts one after the other filters each: kept lines stay in their order |
| StrUtil.FilterMembers | client/src/components/ExportModal.js:19-22 | a line is kept exactly when it is one of the lines and passes the filter |
| StrUtil.FilterTwice | client/src/components/ExportModal.js:19-22 | filtering filtered lines again changes nothing |
| StrUtil.FilterAll | client/src/components/ExportModal.js:19-22 | lines that all pass the filter are kept unchanged |
| ExportModal.AdminSeesAll | client/src/components/ExportModal.js:17-18 | administrators get the text unchanged |
| ExportModal.UserSeesShownLines | client/src/components/ExportModal.js:6-22 | for everybody else the result joins with "\n" exactly those lines of the text whose trimmed form starts with no hidden prefix |
| ExportModal.EmptyLineShown | client/src/components/ExportModal.js:6-11 | no hidden prefix is empty, so an empty line is shown |
| ExportModal.FilterIdempotent | client/src/components/ExportModal.js:17-23 | filtering the filtered text again gives the same text |
| ExportModal.BaseName | client/src/components/ExportModal.js:37-39 | without a file name the base name is 'transkription'; otherwise it is the name, or the name without a final dot followed by at least one dot-free character |
| ExportModal.TxtName | client/src/components/ExportModal.js:47 | the TXT download name ends in ".txt" |
| ExportModal.BaseNameOf | client/src/components/ExportModal.js:37-39 | for every stem and non-empty dot-free extension, the base name of stem + "." + extension is the stem |
| ExportModal.BaseNameKeeps | client/src/components/ExportModal.js:37-39 | a name without a dot, or ending in a dot, is its own base name |
| ExportModal.DotFileDownload | client/src/components/ExportModal.js:37-47 | a dot-file such as ".bashrc" has the empty base name, so it downloads as ".txt" |
| ExportModal.ReplaceAllChar | client/src/components/ExportModal.js:61-64 | replacing every occurrence of a one-character pattern replaces that character wherever it occurs |
| ExportModal.EscapedHasNoTags | client/src/components/ExportModal.js:61-64 | an escaped line contains no raw '<' or '>' |
| ExportModal.EscapeRoundTrip | client/src/components/ExportModal.js:61-64 | decoding the three entities of an escaped line gives the line back, because '&' is escaped first |
| ExportModal.LineElement | client/src/components/ExportModal.js:66-68 | a line of ten or more leading dashes is a rule; a line with a non-space character among its first five is a paragraph of the escaped line; anything else is an empty paragraph |
| ExportModal.PdfElements | client/src/components/ExportModal.js:58-70 | the export has exactly one element per line of the text, in order |
| ExportModal.NearLeftNotBlank | client/src/components/ExportModal.js:67 | a line that the regular expression accepts is never blank, so the extra trim test changes nothing |
| ExportModal.ContinuationDropped | client/src/components/ExportModal.js:67-68 | a continuation line of twelve spaces and text becomes an empty paragraph: its text is lost in the PDF |
| StrUtil.FilterSublist | client/src/components/UserSelectorModal.js:60-67 | the filtered users form an order-preserving sublist of the users |
| StrUtil.SublistExtend | client/src/components/UserSelectorModal.js:60-67 | a sublist stays a sublist when the list grows at its end |
| StrUtil.SublistDropLast | client/src/components/UserSelectorModal.js:60-67 | dropping the last element of a sublist leaves a sublist |
| StrUtil.FilterCongruent | client/src/components/UserSelectorModal.js:60-67 | tests that agree on every user keep the same users |
| UserSelector.ApplyFiltersSpec | client/src/components/UserSelectorModal.js:54-70 | the result is an order-preserving sublist of the users and holds exactly the users whose first and last names contain the filters ignoring case, an empty filter matching every name |
| UserSelector.ShortcutAgrees | client/src/components/UserSelectorModal.js:55-58 | returning the list unchanged for two empty filters gives what filtering with them gives |
| StrUtil.LowerIdempotent | client/src/components/UserSelectorModal.js:62-64 | lower-casing a lower-cased name changes nothing |
| UserSelector.FilterCaseInsensitive | client/src/components/UserSelectorModal.js:60-67 | filters typed in any letter case select the same users as their lower-cased forms |
| UserSelector.DisplayName | client/src/components/UserSelectorModal.js:72-76 | the chosen name is the trimmed "first last" when that is not empty, and otherwise the username |
| UserSelector.NamelessShowsUsername | client/src/components/UserSelectorModal.js:73 | a user without first and last names is shown by username |
| UserSelector.FirstNameAlone | client/src/components/UserSelectorModal.js:73 | a first name without surrounding white space and an empty last name is shown alone, without the separating space |
| Files.LeadingDigits | server/routes/files.js:103 | the digit run parseInt reads is the longest run of digits at the start of the text |
| Files.ParseIntDigits | server/routes/files.js:103-104 | parseInt reads a run of digits up to the first character that is not a digit |
| Files.ParseIntAllDigits | server/routes/files.js:103-104 | a text made only of digits is read as its decimal value |
| Files.ParseIntUnsigned | server/routes/files.js:103-104 | text that starts with neither white space nor a sign is read as its leading digits, NaN without any |
| Files.ParseIntEmpty | server/routes/files.js:103 | the empty text is not a number |
| Files.RangeHeaders | server/routes/files.js:102-112 | Content-Length is end minus start plus one and Content-Range echoes start, end and the file size |
| Files.Stream | server/routes/files.js:84-128 | a missing path gives 400 and a missing file 404, in that order; with a range header the read stream is opened before the head is written: 206 comes exactly when start and end are integers from 0 to 2^53-1 with start <= end, and then Content-Length is at least 1; any other range ends in the catch as 500 with the exception's message; without a range header the whole size is sent with 200 |
| Files.RangeParts | server/routes/files.js:102 | removing "bytes=" and splitting at '-' takes "bytes=a-b" apart into a and b |
| Files.RangeHeadersOf | server/routes/files.js:102-104 | the start is read from the text before the dash, the end from the text after it or, when that is empty, is the last byte of the file |
| Files.ClosedRange | server/routes/files.js:102-105 | "bytes=a-b" gives start a, end b and length b - a + 1 |
| Files.ContentRangeEchoes | server/routes/files.js:108 | a range written in canonical decimal comes back unchanged in Content-Range |
| Files.OpenRange | server/routes/files.js:104-105 | "bytes=a-" ends at the last byte of the file, with length size - a |
| Files.RangeLength | server/routes/files.js:105 | once start and end are numbers the length is end - start + 1 |
| Files.SuffixRangeUnread | server/routes/files.js:102-105 | a suffix range "bytes=-n" has a NaN start and a NaN length |
| Files.UnsatisfiableRangeAnswered | server/routes/files.js:100-106 | a range "bytes=a-b" whose start lies after its end is refused by the read stream and answered 500, not 416 |
| Files.SatisfiableRangeServed | server/routes/files.js:100-113 | a range "bytes=a-b" with a <= b below 2^53 is answered 206 with Content-Length b - a + 1 |
| Files.SuffixRangeFails | server/routes/files.js:100-106 | a suffix range "bytes=-n" has a NaN start, so the read stream throws and the answer is 500 |
| Files.EmptyFileOpenRangeFails | server/routes/files.js:104-106 | an open range "bytes=a-" on an empty file ends at -1, so the read stream throws and the answer is 500 |
| Files.LoadLocal | server/routes/files.js:13-81 | a missing path gives 400, a missing file 404, a directory 400, in that order; type mp3 (the default) returns the Windows basename (after the last '/' or '\\'), the stream url built from the encoded path, the size and the path; type txt returns the content; any other type is refused |
| Files.LoadLocalNamesFile | server/routes/files.js:41-54 | a local MP3 picked by its Windows path is named by its file name alone |
| Files.GetFileAsWritten | server/routes/files.js:131-154 | as written: a missing file gives 404 before any other check, and the file is sent exactly when its resolved path starts with the resolved upload directory as a string |
| Files.SiblingDirectoryServed | server/routes/files.js:145 | as written, "D:\\app\\uploads-old\\a.mp3" is sent for the upload directory "D:\\app\\uploads" though it lies outside it |
| Files.GetFile | server/routes/files.js:131-154 | corrected: a missing file gives 404, and the file is sent exactly when its resolved path is the upload directory or continues it after a backslash or '/' |
| Files.InsideServed | server/routes/files.js:142-149 | corrected: every existing file below the upload directory is sent, whichever separator follows the directory name |
| Files.CorrectedServesLess | server/routes/files.js:141-149 | whatever the corrected check sends the check as written sends too, and the two differ only on paths outside the directory |
| Files.MissingBeforeContainment | server/routes/files.js:137-147 | a missing file is answered 404 before its location is checked |
| Files.Delete | server/routes/files.js:157-175 | the answer is 404 exactly when the file is missing; otherwise that file is deleted |
| Files.DeleteIgnoresContainment | server/routes/files.js:157-167 | deletion makes no containment check: an existing file outside the upload directory is deleted though reading it is refused |
| SqlUpdate.Assignments | server/routes/users-pg.js:384-408 | one "column = $k" per pushed column, as many as there are columns |
| SqlUpdate.PlaceholderOfAssignment | server/routes/users-pg.js:385 | the placeholder written into an assignment reads back as the counter value it was built with |
| SqlUpdate.AssignmentsNumbered | server/routes/transcriptions-pg.js:395-403 | the i-th assignment carries placeholder first + i, because the counter goes up by one per push |
| SqlUpdate.PlaceholdersConsecutive | server/routes/users-pg.js:382-408 | counting from 1, the placeholders are 1, 2, ... in the order the columns are pushed |
| SqlUpdate.UpdateBuilder.constructor | server/routes/users-pg.js:380-382 | the builder starts with no updates, no values and the counter at 1 |
| SqlUpdate.UpdateBuilder.Push | server/routes/users-pg.js:384-387 | a push appends the column's assignment and its value and advances the counter, keeping counter = updates + 1 and one value per update |
| SqlUpdate.UpdateBuilder.Statement | server/routes/users-pg.js:411-422 | no update gives no statement; otherwise the id is the last value, its placeholder is the number of values, and the statement sets the columns numbered from 1 |
| TranscriptionsPg.Guard | server/routes/transcriptions-pg.js:212-225 | a missing row gives 404 and someone else's row 403 unless the requester is an admin; the handler goes on exactly for the owner or an admin |
| TranscriptionsPg.Get | server/routes/transcriptions-pg.js:192-239 | the row is returned exactly to its owner or an admin; otherwise 404 for a missing row and 403 for a foreign one |
| TranscriptionsPg.GetAudio | server/routes/transcriptions-pg.js:245-298 | the audio is sent with its size and an inline disposition exactly when the requester may access the row and it holds audio; missing audio gives 404 only after the permission test |
| TranscriptionsPg.StripExtension | server/routes/transcriptions-pg.js:340 | the result is a prefix of the name, either the whole name or the name cut before a final dot followed by at least one character that is neither '.' nor '/' |
| TranscriptionsPg.DownloadName | server/routes/transcriptions-pg.js:340-341 | the attachment name always ends in "_transcription.txt" |
| TranscriptionsPg.DownloadNameOf | server/routes/transcriptions-pg.js:340-341 | "stem.ext" gives "stem_transcription.txt" for every extension without '.' or '/' |
| TranscriptionsPg.DirectoryDotKept | server/routes/transcriptions-pg.js:340 | a name whose last dot is followed by a '/' keeps that dot: the whole name gets the suffix |
| TranscriptionsPg.Download | server/routes/transcriptions-pg.js:304-361 | the text is sent as an attachment under DownloadName exactly when the requester may access the row and its text is not empty; an empty text gives 404 |
| TranscriptionsPg.BuildUpdate | server/routes/transcriptions-pg.js:393-417 | no statement exactly when neither field is given; otherwise the present fields' values in order with the id last, and the statement over the present columns with the id's placeholder one past the last |
| TranscriptionsPg.BothFieldsNumbered | server/routes/transcriptions-pg.js:393-417 | with both fields, transcription_text takes $1 and has_summary $2 and the values are text, flag, id |
| TranscriptionsPg.Update | server/routes/transcriptions-pg.js:367-459 | 404, then 403, then 400 when no field is given; otherwise the statement and values BuildUpdate promises |
| TranscriptionsPg.Delete | server/routes/transcriptions-pg.js:465-514 | the row is removed exactly for its owner or an admin; otherwise 404 or 403 |
| TranscriptionsPg.Create | server/routes/transcriptions-pg.js:88-140 | a missing file name gives 400; only an admin's target user is honoured and an unknown one gives 400; text defaults to "", the summary flag to false, audio to none with size 0 |
| UsersPg.ValidEmailIsPattern | server/routes/users-pg.js:215 | the direct check (no white space, a single '@' with text before it, a '.' inside the part after it) accepts exactly the addresses the regular expression matches |
| UsersPg.ValidEmailMatches | server/routes/users-pg.js:215 | an address passing the direct check matches the regular expression |
| UsersPg.PatternValid | server/routes/users-pg.js:215 | an address matching the regular expression passes the direct check |
| UsersPg.EmailExamples | server/routes/users-pg.js:215 | "a@b.c" is valid; "a@bc" and "a b@c.d" are not |
| UsersPg.SearchPattern | server/routes/users-pg.js:29-37 | a missing or blank query gives no search; otherwise the pattern is the trimmed query between two '%' |
| UsersPg.Create | server/routes/users-pg.js:176-280 | missing username, password or first name gives 400, then an invalid given address 400, then a taken username or a given taken address 409; the user is created exactly when all checks pass, with last name "", address null and the admin flag false by default |
| UsersPg.SetColumns | server/routes/users-pg.js:384-408 | at most one column per field |
| UsersPg.SetValues | server/routes/users-pg.js:384-408 | one value per set column |
| UsersPg.NothingSet | server/routes/users-pg.js:410-415 | nothing is set exactly when no field has a value |
| UsersPg.SetColumnsFromFields | server/routes/users-pg.js:384-408 | every set column belongs to a field that has a value |
| UsersPg.PasswordAndEmailRules | server/routes/users-pg.js:396-408 | a blank address is bound as NULL and an empty password sets no password hash |
| UsersPg.BuildUpdate | server/routes/users-pg.js:380-422 | no statement exactly when no field is set; otherwise the set fields' values in order with the user id last, and the statement over the set columns with the id's placeholder one past the last |
| UsersPg.PushThree | server/routes/users-pg.js:384-408 | three fields in a row extend the builder's columns and values as SetColumns and SetValues say |
| UsersPg.PushField | server/routes/users-pg.js:384-387 | a field with a value is pushed and one without is skipped |
| UsersPg.Update | server/routes/users-pg.js:335-422 | an invalid non-blank address gives 400 before existence gives 404; a taken username or non-blank address gives 409; a statement comes only when every check passed and something is set |
| UsersPg.Delete | server/routes/users-pg.js:461-480 | deleting oneself gives 400 before the lookup, a missing user 404; the user is deleted exactly otherwise |
| UsersPg.TranscriptionsAccess | server/routes/users-pg.js:513-525 | a user's transcriptions are allowed exactly to that user or an admin; otherwise 403 |
| UsersPg.UploadDirectoryAccess | server/routes/users-pg.js:564-581 | a user's upload directory is allowed exactly to that user, admins included; otherwise 403 |
| PublicAccess.FirstNameOpens | server/routes/publicAccess.js:199-205 | the owner's first name opens the page in any letter case, and an empty first name opens nothing because the password must be truthy |
| PublicAccess.Check | server/routes/publicAccess.js:20-89 | an id of invalid format gives 400 before any lookup; a user id answers with the trimmed full name or 404, an MP3 id with the file name and author or 404; the final "Ungültige ID." is answered only for an id of neither kind |
| PublicAccess.Verify | server/routes/publicAccess.js:105-282 | a missing password gives 400 before the format test; then 400 for the format, 404 for a missing user or transcription, 401 for a wrong password; success exactly when the lower-cased password equals the owner's lower-cased first name, with a non-admin public token for the owner and type 'user' exactly for a user id |
| PublicAccess.Mp3TokenForOwner | server/routes/publicAccess.js:159-188 | for an MP3 id the password and the token belong to the transcription's owner |
| PublicAccess.UserPageOf | server/routes/publicAccess.js:298-347 | 400 unless a user id of valid format, then 404, then 401 for a missing or wrong pw; otherwise the user's id and trimmed full name |
| PublicAccess.Mp3PageOf | server/routes/publicAccess.js:397-465 | 400 unless an MP3 id of valid format, then 404, then 401 for a missing or wrong pw; otherwise the transcription read-only, its summary flag true only for a stored true |
| UserManagement.StrBelowIrreflexive | client/src/components/admin/UserManagement.js:277-278 | no string sorts before itself |
| UserManagement.StrBelowAsymmetric | client/src/components/admin/UserManagement.js:277-278 | two strings never both sort before each other |
| UserManagement.StrBelowTotal | client/src/components/admin/UserManagement.js:277-278 | of two different strings one sorts before the other |
| UserManagement.StrBelowTransitive | client/src/components/admin/UserManagement.js:277-278 | string order is transitive |
| UserManagement.KeyBelowIrreflexive | client/src/components/admin/UserManagement.js:264-278 | no key sorts before itself |
| UserManagement.KeyBelowAsymmetric | client/src/components/admin/UserManagement.js:264-278 | two keys never both sort before each other |
| UserManagement.KeyBelowTotal | client/src/components/admin/UserManagement.js:264-278 | of two different keys one sorts before the other |
| UserManagement.KeyBelowTransitive | client/src/components/admin/UserManagement.js:264-278 | key order is transitive |
| UserManagement.Compare | client/src/components/admin/UserManagement.js:263-280 | the comparator answers -1, 0 or 1; 0 exactly for equal keys (a missing value counting as '', the count as a number, other columns lower-cased), negative exactly when the first key comes first in the chosen order |
| UserManagement.DescReversesAsc | client/src/components/admin/UserManagement.js:277-278 | descending answers the negation of ascending |
| UserManagement.CompareAntisymmetric | client/src/components/admin/UserManagement.js:263-280 | swapping the two users negates the answer |
| UserManagement.CaseIgnored | client/src/components/admin/UserManagement.js:272-274 | a name sorts the same whatever its letter case |
| UserManagement.LeTotal | client/src/components/admin/UserManagement.js:263-280 | of any two users one may stand before the other |
| UserManagement.LeTransitive | client/src/components/admin/UserManagement.js:263-280 | "may stand before" is transitive, so the comparator is consistent |
| UserManagement.InsertMultiset | client/src/components/admin/UserManagement.js:263 | inserting adds exactly the inserted user |
| UserManagement.InsertMembers | client/src/components/admin/UserManagement.js:263 | after inserting, every user is the inserted one or was there before |
| UserManagement.InsertFront | client/src/components/admin/UserManagement.js:263 | a user that may stand before every user of a sorted list may go in front of it |
| UserManagement.InsertSorted | client/src/components/admin/UserManagement.js:263 | inserting into a sorted list keeps it sorted |
| UserManagement.SortUsers | client/src/components/admin/UserManagement.js:263-280 | the sorted copy is in comparator order and holds exactly the users, each as often |
| UserManagement.ReplaceById | client/src/components/admin/UserManagement.js:171 | after a save the list keeps its length, the entries with the saved id become the saved user, and all others are unchanged |
| UserManagement.RemoveById | client/src/components/admin/UserManagement.js:239 | after a delete no entry has the deleted id |
| UserManagement.RemoveMembers | client/src/components/admin/UserManagement.js:239 | a delete keeps exactly the users with another id |
| UserManagement.RemoveAbsent | client/src/components/admin/UserManagement.js:239 | deleting an id no entry has changes nothing |
| UserManagement.RemoveAfterReplace | client/src/components/admin/UserManagement.js:171-239 | a save followed by a delete of the same id leaves what the delete alone leaves |
| UserManagement.Screen.constructor | client/src/components/admin/UserManagement.js:27-53 | the table starts empty, sorted by first name ascending, with nothing selected or edited |
| UserManagement.Screen.SortedUsers | client/src/components/admin/UserManagement.js:263-280 | the table shows the users in the current sort order, each exactly as often as in the list |
| UserManagement.Screen.HandleSort | client/src/components/admin/UserManagement.js:251-260 | the same column flips the order, another column is selected ascending, nothing else changes |
| UserManagement.Screen.HandleRowClick | client/src/components/admin/UserManagement.js:99-103 | a click toggles the selection of the row, and does nothing while that row is being edited |
| UserManagement.Screen.HandleCellDoubleClick | client/src/components/admin/UserManagement.js:106-117 | the cell's user and field are edited, the form filled from the row with an empty password |
| UserManagement.Screen.HandleBlur | client/src/components/admin/UserManagement.js:133-165 | without an edited cell nothing happens; a blank first name or username shows an error and ends the edit; a blank password ends it silently; otherwise exactly one field is sent and the answer decides the state |
| UserManagement.Screen.Save | client/src/components/admin/UserManagement.js:160-194 | on success only the row with that id is replaced and the edit ends; on an error the message is shown and the edit goes on |
| UserManagement.Screen.HandleEscape | client/src/components/admin/UserManagement.js:198-205 | Escape during an edit drops the edit and the form |
| UserManagement.Screen.HandleCreated | client/src/components/admin/UserManagement.js:212-227 | a created user goes to the front of the list; an error shows its message |
| UserManagement.Screen.HandleDeleteUser | client/src/components/admin/UserManagement.js:230-248 | nothing without confirmation; a deleted user leaves the list, and the selection when it was selected |
| UserManagement.FormOf | client/src/components/admin/UserManagement.js:109-116 | the form always holds an empty password and an address |
| UserManagement.FreshPasswordIsBlank | client/src/components/admin/UserManagement.js:109-158 | blurring a password cell right after the double click sends nothing |
| TranscriptView.BlankIsTrimEmpty | client/src/components/TranscriptView.js:608-611 | a line counts as blank exactly when `trim()` leaves nothing of it |
| TranscriptView.KeyIsTrimmed | client/src/components/TranscriptView.js:471-479 | the key duplicate removal uses is the trimmed line, for exactly the non-blank lines that open with `[hh:mm:ss]` |
| TranscriptView.SkipIndices | client/src/components/TranscriptView.js:468-479 | an index is skipped exactly when its line has a key and a later line has the same key |
| TranscriptView.RemoveDuplicates | client/src/components/TranscriptView.js:468-481 | the kept lines are the input without the skipped ones, in order |
| TranscriptView.DeduplicatedNoRepeats | client/src/components/TranscriptView.js:468-481 | after duplicate removal no two stamp lines have the same trimmed text |
| TranscriptView.KeyKept | client/src/components/TranscriptView.js:468-481 | every trimmed stamp text of the input is still present afterwards, because its last occurrence survives |
| TranscriptView.UnkeyedLinesKept | client/src/components/TranscriptView.js:468-481 | all lines that are not stamp lines survive, in their order |
| TranscriptView.DeduplicateIdempotent | client/src/components/TranscriptView.js:468-481 | removing duplicates twice gives the same lines as removing them once |
| TranscriptView.DisplayFilter | client/src/components/TranscriptView.js:465-489 | administrators see every line left after duplicate removal; other users see exactly those lines that no hidden prefix starts once trimmed, so never more lines |
| TranscriptView.CurrentLine | client/src/components/TranscriptView.js:101-122 | no line when no stamp line's time has been reached; otherwise a reached stamp line with the latest time, the first among equal times, and its `[hh:mm:ss]` |
| TranscriptView.HeadingIsRule | client/src/components/TranscriptView.js:596-605 | every line that ends a block when rendering also ends it when saving |
| TranscriptView.BareRuleEndsSavingOnly | client/src/components/TranscriptView.js:353-364 | a bare line of ten dashes ends a block when saving but not when rendering |
| TranscriptView.FirstEnd | client/src/components/TranscriptView.js:596-606 | the first line from the given index on that ends a block, or the end of the lines |
| TranscriptView.DropTrailingBlanks | client/src/components/TranscriptView.js:608-611 | popping gives back exactly the blank lines at the end of the run and stops after a non-blank line or at the stamp line |
| TranscriptView.ContinuationEnd | client/src/components/TranscriptView.js:595-611 | the continuation lines close no block, the last of them is not blank, and only blank lines lie between them and the line that ends the block |
| TranscriptView.GatherRun | client/src/components/TranscriptView.js:596-606 | the first loop collects exactly the lines up to the first one that ends a block |
| TranscriptView.DropBlankTail | client/src/components/TranscriptView.js:608-611 | the second loop pops exactly the trailing blank lines |
| TranscriptView.Continuations | client/src/components/TranscriptView.js:595-677 | the continuation lines of a stamp line and the index at which rendering resumes are the ones `ContinuationEnd` describes |
| TranscriptView.FirstEligible | client/src/components/TranscriptView.js:333-345 | the block edit goes to the first line that starts with `[ts]` at or after a line containing "Gesamtzusammenfassung:" or starting with `===`; there is none when no line is such a mark |
| TranscriptView.FindBlock | client/src/components/TranscriptView.js:333-345 | the search loop finds the line `FirstEligible` names |
| TranscriptView.CountRun | client/src/components/TranscriptView.js:353-364 | the counting loop stops at the first stamp line, line starting with ten dashes, or `═` line |
| TranscriptView.SaveEdit | client/src/components/TranscriptView.js:307-375 | nothing is saved without an edit or when the edit equals the original; nothing is saved when no line is a mark (plain transcripts); otherwise the result is the spliced text |
| TranscriptView.SavedTextLines | client/src/components/TranscriptView.js:325-371 | read back line by line, the saved text keeps every line before the block and after its run, turns the stamp line into `[ts] ` plus the first edited line, and puts the other edited lines in place of the run |
| TranscriptView.TrailingBlanksLost | client/src/components/TranscriptView.js:217-371 | when only the first line of the edit buffer is changed, the blank lines the buffer left out at the end of the block are missing from the saved lines |
| TranscriptView.BareRuleWrittenTwice | client/src/components/TranscriptView.js:353-611 | when a block continues with a bare rule of ten dashes, saving its buffer writes the rule and the lines after it twice |
| TranscriptView.FirstContaining | client/src/components/TranscriptView.js:396-401 | the first line that contains the pattern, or none exactly when no line contains it |
| TranscriptView.SaveHeadingEdit | client/src/components/TranscriptView.js:378-418 | nothing is saved without a key, without an edit, or when the edit equals the original; otherwise the first line containing ten dashes, one space and the key is replaced whole |
| TranscriptView.SavedHeadingLines | client/src/components/TranscriptView.js:393-407 | read back line by line, a saved heading edit changes exactly the line found and keeps the number of lines |
| TranscriptView.TwoSpaceHeadingMissed | client/src/components/TranscriptView.js:394-398 | a heading written with two spaces after the dashes does not contain the search pattern for its own key |
| TranscriptView.TwoSpaceHeadingEditLost | client/src/components/TranscriptView.js:378-418 | editing a heading written with two spaces leaves the text unchanged when no other line contains the pattern |

## Left out

- React rendering, effects, refs, timers, scrolling and the DOM are not modelled. This covers the summary-section rendering and textarea resizing in `TranscriptView.js`, the print window and blob download in `ExportModal.js`, and every UI file that only renders. Only the values these components compute are modelled.
- Process and stream plumbing is not modelled: `subprocess.Popen`, `spawn`, the WSL bridge command, `StreamingResponse`, socket.io emits and chunk boundaries. Each worker run is an abstract outcome record, and each route or generator emits into an event sequence. The double-response race between the Node routes' 'error' and 'close' handlers is not modelled. Neither is the missing terminal event when `Popen` itself raises in `main.py`.
- The worker is assumed not to delete its own input file, because its file-system effects are outside the model.
- Model inference and external services are uninterpreted: the Whisper and llama models, the RunPod HTTP calls and ffprobe. The summariser is a function from prompt to answer, passed as a parameter. The wording of the system prompts is abstract: a `SystemPrompt` value stands for each prompt text. For a prompt type inherited from Object.prototype the model records the property name; the string form of that value, which becomes the prompt, is not modelled.
- Interactive command-line code is not modelled: menus, argparse, `display_transcription` and the coloured print helpers.
- Floating-point values and clocks are not modelled. This covers durations, the real-time ratio, file sizes, dates, and the timestamp and temp-name parts derived from `Date.now` and `time.time`. Where one of these reaches a string, it is a parameter, so the `Start`, `Ende`, `Dauer` and `Ratio` header lines are parameters. Timestamps are whole seconds, as the workers write them. `TranscriptView.CurrentLine` compares whole seconds with the player's time, which is taken as an integer. Since every stamp is a whole number, comparing against the floor of the player's time gives the same answers.
- `wrap_text` is not modelled: its regular expression is applied until a fixed point. `TranscribePy.FormatTranscription` takes each segment's wrapped sublines as input.
- Databases are not modelled: the SQL queries themselves, the migration and seed scripts, and the audit log entries the routes write. Every lookup is a parameter (present or absent, with its row). The try/catch paths that answer 500 on a database error are not modelled.
- Cryptography and third-party libraries are not modelled: bcrypt, JWT signing and the signature and expiry checks, nanoid and uuid, multer's disk storage, and the rate limiter. `Auth` takes `verifyToken`'s answer as a parameter. `ShortId` takes the random alphabet indices as parameters. Upload takes the uuid and multer's size-limit verdict as parameters.
- The list endpoints that only run a query (`GET /` of users and transcriptions) are not modelled. Neither is the `/user` transcription list of the public-access routes.
- `PublicAccess`: the crash in `/verify` when the owner row of a transcription is missing is not modelled, because the owner lookup is taken as always present.
- `UserManagement`: the fetch of the selected user's transcription list is not modelled.
- Request bodies are modelled as present-or-absent strings and booleans. JSON `null`, numbers given where strings are expected, and other non-string values are not modelled.
- `Files.Stream`: the text of the message Node's `fs.createReadStream` throws for a refused range is a parameter. Its checks are modelled as current Node makes them: both positions integers from 0 to `Number.MAX_SAFE_INTEGER`, the start not after the end. `parseInt` is modelled on unbounded integers, so the rounding of digit runs beyond 2^53 is not modelled.
- `Files`: the path normalisation of `path.resolve` is not modelled, and neither is `encodeURIComponent` in the stream URL. Paths are taken as already resolved.
- Node's `path` functions follow their Windows rules (`path.win32`), because the server runs on Windows: its local directories are drive paths and it starts the workers through `wsl`. `isAbsolute` and `basename` are modelled; UNC paths and the joining of `path.join` are not.
- `StrUtil.Lower`: lowercasing covers ASCII and the Latin-1 capitals only. The full Unicode case mapping of `toLowerCase` and `lower()` is not modelled.
- Strings are sequences of code points, so lengths differ from JavaScript's UTF-16 lengths for characters outside the Basic Multilingual Plane. Python's `\d` is taken as ASCII digits only.
- `LocalFiles.SortNewestFirst`: the sort by modification time is modelled on explicit time values with an insertion sort. Its contract states sortedness and permutation only. It does not state where equal keys end up, which `Array.prototype.sort` fixes by being stable.
- `UserManagement.Screen.SortedUsers` is modelled as an insertion sort under the same comparator. Its contract likewise leaves the order of equal keys unstated.
- `LocalService.ListFiles`: `files_list` in `main.py` sorts by modification time. The model keeps directory order, because the times come from the file system.
- `LocalService.Transcribe` and `LocalService.Summarize`: the duration in the complete events is a parameter, a whole number of tenths of a second, because it is a clock reading.
- `StrUtil.ToNumber`: JavaScript's `Number()` is modelled on trimmed decimal digits only, and anything else is NaN. Signs, decimal points, exponents, `0x`/`0b`/`0o` prefixes and "Infinity" are not modelled. The timestamp fields it reads are two-digit fields.

## Findings

| source | as written | input that shows it | evidently intended | confidence | as-written member | corrected member |
|---|---|---|---|---|---|---|
| server/routes/transcribe-local.js:117-118 | the result name is `path.basename(filename, '.mp3') + '.txt'`, and the extension is matched case-sensitively | `"talk.MP3"`: the route looks for `"talk.MP3.txt"`, but the worker (base-data/transcribe.py:141-142) writes `"talk.txt"`, so a successful run is reported as a missing result | the result name is the worker's: the stem without its extension, whatever its case, plus `.txt` | high (proved on the model; not executed) | TranscribeLocal.UpperCaseTranscriptMissing | TranscribeLocal.WorkerTranscriptDelivered |
| server/routes/files.js:145 | the file is served when its resolved path string starts with the resolved upload directory string | upload directory `D:\app\uploads`, file `D:\app\uploads-old\a.mp3`: the file is outside the directory but is served | serve only paths inside the directory: the directory itself followed by a separator | high (proved on the model; not executed) | Files.SiblingDirectoryServed | Files.CorrectedServesLess |
