// The transcript file written by the command-line transcriber (base-data/transcribe.py):
// the hh:mm:ss time format, the run header, one stamped line per Whisper segment with
// indented continuation lines, the fixed spelling corrections and the output file name.

module TranscribePy {
  import opened StrUtil
  import Helpers

  // ---------------------------------------------------------------------
  // Timestamps

  /** format_timestamp on whole seconds: "None" for a missing time, otherwise the hours,
      minutes and seconds, each padded to at least two digits. */
  function FormatTimestamp(seconds: Option<nat>): string
  {
    match seconds
    case None => "None"
    case Some(n) => Helpers.Clock(n)
  }

  /** A formatted time reads back as the same number of seconds, and a missing one is
      the text "None". */
  lemma FormatTimestampRoundTrip(seconds: Option<nat>)
    ensures seconds.None? ==> FormatTimestamp(seconds) == "None"
    ensures seconds.Some? ==> Helpers.ParseTimestamp(FormatTimestamp(seconds)) == Num(seconds.value)
  {
    if seconds.Some? {
      Helpers.FormatIsClock(seconds.value);
      Helpers.ParseFormatRoundTrip(seconds.value);
    }
  }

  /** Seconds from 100 hours on. */
  const HundredHours := 360000

  /** A decimal numeral of three or more digits. */
  lemma NatToStringLong(n: nat)
    requires n >= 100
    ensures |NatToString(n)| >= 3
  {
    assert NatToString(n) == NatToString(n / 10) + [DigitChar(n % 10)];
  }

  /** The formatted time has the shape `\d{2}:\d{2}:\d{2}` exactly below 100 hours;
      from then on the hour field has three digits. */
  lemma ClockIsStamp(n: nat)
    ensures Helpers.IsStamp(Helpers.Clock(n)) <==> n < HundredHours
  {
    var h, m, s := PadNat(n / 3600, 2), PadNat(n % 3600 / 60, 2), PadNat(n % 60, 2);
    assert Helpers.Clock(n) == h + ":" + m + ":" + s;
    PadNatTwoDigits(n % 3600 / 60);
    PadNatTwoDigits(n % 60);
    if n < HundredHours {
      PadNatTwoDigits(n / 3600);
    } else {
      NatToStringLong(n / 3600);
      assert (h + ":" + m + ":" + s)[2] == h[2];
    }
  }

  // ---------------------------------------------------------------------
  // Segment layout

  /** A Whisper segment as the layout uses it: its start (None when Whisper gives
      none) and its text. */
  datatype Segment = Segment(start: Option<nat>, text: string)

  /** `wrap_text(text, width).splitlines()`: the wrapped pieces of a segment's text,
      taken as given. */
  type Wrapper = string -> seq<string>

  /** The line built for a segment before it is tested: "[" + time + "] " + text. */
  function StampLine(seg: Segment): string
  {
    "[" + FormatTimestamp(seg.start) + "] " + seg.text
  }

  /** Continuation pieces, each indented by twelve blanks. */
  function Indented(pieces: seq<string>): (r: seq<string>)
    ensures |r| == |pieces|
  {
    seq(|pieces|, i requires 0 <= i < |pieces| => Repeat(' ', 12) + pieces[i])
  }

  /** The lines one segment adds: nothing unless its line starts with
      `\[\d{2}:\d{2}:\d{2}\] `; otherwise the stamp and the first wrapped piece, then
      every further piece indented. */
  function SegmentLines(seg: Segment, wrap: Wrapper): seq<string>
  {
    var line := StampLine(seg);
    if StampTokenAt(line, 0) then
      var pieces := wrap(line[11..]);
      if pieces == [] then [] else [line[..11] + pieces[0]] + Indented(pieces[1..])
    else []
  }

  /** The lines of all segments, in segment order. */
  function Lines(segments: seq<Segment>, wrap: Wrapper): seq<string>
  {
    if segments == [] then []
    else Lines(segments[..|segments| - 1], wrap) + SegmentLines(segments[|segments| - 1], wrap)
  }

  /** A segment's line passes the stamp test exactly when it has a start below 100
      hours; the stamp is then the formatted start and the rest is the segment's text. */
  lemma StampTest(seg: Segment)
    ensures StampTokenAt(StampLine(seg), 0) <==> seg.start.Some? && seg.start.value < HundredHours
    ensures seg.start.Some? && seg.start.value < HundredHours ==>
      StampLine(seg)[..11] == "[" + Helpers.Clock(seg.start.value) + "] "
      && StampLine(seg)[11..] == seg.text
  {
    match seg.start
    case None =>
      assert StampLine(seg)[1] == 'N';
    case Some(n) =>
      ClockIsStamp(n);
      if n < HundredHours {
        StampOfStamp(Helpers.Clock(n), seg.text);
      } else {
        LongClockNoStamp(n, seg.text);
      }
  }

  /** A well-formed time gives a line with the stamp token in front of the text. */
  lemma StampOfStamp(c: string, text: string)
    requires Helpers.IsStamp(c)
    ensures StampTokenAt("[" + c + "] " + text, 0)
    ensures ("[" + c + "] " + text)[..11] == "[" + c + "] "
    ensures ("[" + c + "] " + text)[11..] == text
  {
    var line := "[" + c + "] " + text;
    assert line[1..9] == c;
    assert line[..11] == "[" + c + "] ";
  }

  /** From 100 hours on, the third character of the time is a digit where the token
      needs ':'. */
  lemma LongClockNoStamp(n: nat, text: string)
    requires n >= HundredHours
    ensures !StampTokenAt("[" + Helpers.Clock(n) + "] " + text, 0)
  {
    var h := PadNat(n / 3600, 2);
    NatToStringLong(n / 3600);
    var c := Helpers.Clock(n);
    assert c == h + ":" + PadNat(n % 3600 / 60, 2) + ":" + PadNat(n % 60, 2);
    assert c[2] == h[2];
    var line := "[" + c + "] " + text;
    assert line[3] == c[2];
  }

  /** A segment with a start below 100 hours gives its stamped first piece and the
      indented rest of its wrapped text. */
  lemma SegmentKept(seg: Segment, wrap: Wrapper)
    requires seg.start.Some? && seg.start.value < HundredHours
    ensures var pieces := wrap(seg.text);
      SegmentLines(seg, wrap)
        == if pieces == [] then []
           else ["[" + Helpers.Clock(seg.start.value) + "] " + pieces[0]] + Indented(pieces[1..])
  {
    StampTest(seg);
  }

  /** A segment without a start, or starting at 100 hours or later, is dropped without
      a trace. */
  lemma SegmentDropped(seg: Segment, wrap: Wrapper)
    requires seg.start.None? || seg.start.value >= HundredHours
    ensures SegmentLines(seg, wrap) == []
  {
    StampTest(seg);
  }

  /** The stamped line of a kept segment is read back by the client's timestamp
      extraction as the segment's start and its first piece. */
  lemma StampedLineReadBack(n: nat, first: string)
    requires n < HundredHours
    requires first != [] && !White(JsSpace, first[0]) && Helpers.NoLineTerm(first)
    ensures Helpers.ExtractLine("[" + Helpers.Clock(n) + "] " + first)
      == Some(Helpers.Entry(Helpers.Clock(n), Num(n), first))
  {
    var c := Helpers.Clock(n);
    var line := "[" + c + "] " + first;
    ClockIsStamp(n);
    assert line[1..9] == c;
    assert line[10..] == " " + first;
    TailOfFirst(first);
    Helpers.StampSeconds(c);
    Helpers.ParseFormatRoundTrip(n);
    Helpers.FormatIsClock(n);
  }

  lemma TailOfFirst(first: string)
    requires first != [] && !White(JsSpace, first[0]) && Helpers.NoLineTerm(first)
    ensures Helpers.MatchTail(" " + first) == Some(first)
  {
    var r := " " + first;
    assert r[1..] == first;
    TrimStartStops(first, JsSpace);
    assert TrimStart(r, JsSpace) == TrimStart(first, JsSpace);
  }

  /** A continuation line is not read as a timestamp line. */
  lemma ContinuationNotRead(piece: string)
    ensures Helpers.ExtractLine(Repeat(' ', 12) + piece).None?
  {
    assert (Repeat(' ', 12) + piece)[0] == ' ';
  }

  // ---------------------------------------------------------------------
  // The transcript file

  /** MODEL_DESC */
  function ModelDesc(): string
  {
    "faster-whisper-large-v3: " + "Faster-Whisper mit " + "optimiertem CT2-Format"
  }

  /** The ratio line: the formatted percentage when the MP3 length is known, a notice
      otherwise. */
  function RatioLine(mp3Duration: real, ratio: string): string
  {
    if mp3Duration > 0.0 then "Ratio:   " + ratio + " % (Transkriptionsdauer / MP3-Dauer)"
    else "Ratio: Nicht berechenbar (MP3-Dauer unbekannt)"
  }

  /** The lines of the run header, before the three blank lines. */
  function HeaderLines(date: string, start: string, end: string, duration: string,
                       mp3Duration: real, ratio: string, width: nat): seq<string>
  {
    ["Datum:   " + date, "Start:   " + start, "Ende:    " + end, "Dauer:   " + duration,
     RatioLine(mp3Duration, ratio), "Umbruch: bei Spalte " + NatToString(width),
     "Modell:  " + ModelDesc()]
  }

  /** format_transcription: the run header, three more line breaks, then the lines of
      every segment in order. */
  method FormatTranscription(segments: seq<Segment>, wrap: Wrapper, date: string,
                             start: string, end: string, duration: string,
                             mp3Duration: real, ratio: string, width: nat)
    returns (r: string)
    ensures r == Terminated(HeaderLines(date, start, end, duration, mp3Duration, ratio, width)
                            + ["", "", ""]) + Terminated(Lines(segments, wrap))
  {
    var h := HeaderLines(date, start, end, duration, mp3Duration, ratio, width);
    ghost var done: seq<string> := [];
    r := "";
    PushLine(done, h[0]); done := done + [h[0]];
    r := r + (h[0] + "\n");
    PushLine(done, h[1]); done := done + [h[1]];
    r := r + (h[1] + "\n");
    PushLine(done, h[2]); done := done + [h[2]];
    r := r + (h[2] + "\n");
    PushLine(done, h[3]); done := done + [h[3]];
    r := r + (h[3] + "\n");
    PushLine(done, h[4]); done := done + [h[4]];
    r := r + (h[4] + "\n");
    PushLine(done, h[5]); done := done + [h[5]];
    r := r + (h[5] + "\n");
    PushLine(done, h[6]); done := done + [h[6]];
    r := r + (h[6] + "\n");
    assert done == h;
    TerminatedAppend(h, ["", "", ""]);
    ThreeBlank();
    r := r + "\n\n\n";
    var processed := "";
    for i := 0 to |segments|
      invariant processed == Terminated(Lines(segments[..i], wrap))
    {
      assert segments[..i + 1][..i] == segments[..i];
      TerminatedAppend(Lines(segments[..i], wrap), SegmentLines(segments[i], wrap));
      processed := AppendSegment(processed, segments[i], wrap);
    }
    assert segments[..|segments|] == segments;
    r := r + processed;
  }

  /** The body of the segment loop: the segment's lines, each with its line break,
      appended to the text so far. */
  method AppendSegment(processed: string, seg: Segment, wrap: Wrapper) returns (p: string)
    ensures p == processed + Terminated(SegmentLines(seg, wrap))
  {
    p := processed;
    var line := StampLine(seg);
    if StampTokenAt(line, 0) {
      var timestamp := line[..11];
      var text := line[11..];
      var sublines := wrap(text);
      if sublines != [] {
        p := AppendPieces(p, timestamp, sublines);
      }
    }
  }

  /** The stamp with the first piece, then every further piece indented, each line
      with its break. */
  method AppendPieces(processed: string, timestamp: string, sublines: seq<string>)
    returns (p: string)
    requires sublines != []
    ensures p == processed + Terminated([timestamp + sublines[0]] + Indented(sublines[1..]))
  {
    ghost var lines := [timestamp + sublines[0]] + Indented(sublines[1..]);
    assert lines[..1] == [timestamp + sublines[0]];
    PushLine([], timestamp + sublines[0]);
    p := processed + (timestamp + sublines[0] + "\n");
    for k := 1 to |sublines|
      invariant p == processed + Terminated(lines[..k])
    {
      var more := Repeat(' ', 12) + sublines[k];
      IndentedAt(timestamp + sublines[0], sublines, k);
      assert lines[..k + 1] == lines[..k] + [more];
      PushLine(lines[..k], more);
      AppendAssoc(processed, Terminated(lines[..k]), more + "\n");
      p := p + (more + "\n");
    }
    assert lines[..|sublines|] == lines;
  }

  /** The `k`-th line of a segment, after the first, is its `k`-th piece indented. */
  lemma IndentedAt(first: string, pieces: seq<string>, k: nat)
    requires 1 <= k < |pieces|
    ensures ([first] + Indented(pieces[1..]))[k] == Repeat(' ', 12) + pieces[k]
  {
    assert pieces[1..][k - 1] == pieces[k];
  }

  /** Appending one line and its break. */
  lemma ThreeBlank()
    ensures Terminated(["", "", ""]) == "\n\n\n"
  {
    var b := ["", "", ""];
    assert b[..2] == ["", ""] && ["", ""][..1] == [""] && [""][..0] == [];
  }

  /** Every wrapped piece is free of line breaks, as `splitlines` guarantees. */
  ghost predicate PiecesUnbroken(wrap: Wrapper)
  {
    forall t: string :: Unbroken(wrap(t))
  }

  /** The lines of the file: with header values and wrapped pieces free of line
      breaks, splitting the file at "\n" gives the seven header lines, three empty
      lines, the segment lines, and the empty piece after the final break. */
  lemma TranscriptLines(segments: seq<Segment>, wrap: Wrapper, date: string, start: string,
                        end: string, duration: string, mp3Duration: real, ratio: string,
                        width: nat)
    requires PiecesUnbroken(wrap)
    requires '\n' !in date && '\n' !in start && '\n' !in end && '\n' !in duration
    requires '\n' !in ratio
    ensures var header := HeaderLines(date, start, end, duration, mp3Duration, ratio, width);
      Split(Terminated(header + ["", "", ""]) + Terminated(Lines(segments, wrap)), '\n')
        == header + ["", "", ""] + Lines(segments, wrap) + [""]
  {
    var header := HeaderLines(date, start, end, duration, mp3Duration, ratio, width);
    TerminatedAppend(header + ["", "", ""], Lines(segments, wrap));
    HeaderUnbroken(date, start, end, duration, mp3Duration, ratio, width);
    assert Unbroken(["", "", ""]);
    UnbrokenAppend(header, ["", "", ""]);
    LinesUnbroken(segments, wrap);
    UnbrokenAppend(header + ["", "", ""], Lines(segments, wrap));
    TerminatedSplit(header + ["", "", ""] + Lines(segments, wrap));
  }

  lemma {:induction false} LinesUnbroken(segments: seq<Segment>, wrap: Wrapper)
    requires PiecesUnbroken(wrap)
    ensures Unbroken(Lines(segments, wrap))
    decreases |segments|
  {
    if segments != [] {
      var front := segments[..|segments| - 1];
      LinesUnbroken(front, wrap);
      SegmentUnbroken(segments[|segments| - 1], wrap);
      UnbrokenAppend(Lines(front, wrap), SegmentLines(segments[|segments| - 1], wrap));
    }
  }

  lemma SegmentUnbroken(seg: Segment, wrap: Wrapper)
    requires PiecesUnbroken(wrap)
    ensures Unbroken(SegmentLines(seg, wrap))
  {
    var line := StampLine(seg);
    if StampTokenAt(line, 0) {
      var pieces := wrap(line[11..]);
      if pieces != [] {
        StampTokenUnbroken(line);
        NoBreakJoined(line[..11], pieces[0]);
        IndentedUnbroken(pieces[1..]);
        assert pieces[1..] == pieces[1..];
        UnbrokenAppend([line[..11] + pieces[0]], Indented(pieces[1..]));
      }
    }
  }

  lemma IndentedUnbroken(pieces: seq<string>)
    requires Unbroken(pieces)
    ensures Unbroken(Indented(pieces))
  {
    forall k | 0 <= k < |pieces| ensures '\n' !in Indented(pieces)[k] {
      NoBreakJoined(Repeat(' ', 12), pieces[k]);
    }
  }

  lemma StampTokenUnbroken(line: string)
    requires StampTokenAt(line, 0)
    ensures '\n' !in line[..11]
  {
    forall j | 0 <= j < 11 ensures line[..11][j] != '\n' {
      assert line[..11][j] == line[j];
    }
  }

  lemma HeaderUnbroken(date: string, start: string, end: string, duration: string,
                       mp3Duration: real, ratio: string, width: nat)
    requires '\n' !in date && '\n' !in start && '\n' !in end && '\n' !in duration
    requires '\n' !in ratio
    ensures Unbroken(HeaderLines(date, start, end, duration, mp3Duration, ratio, width))
  {
    TagsUnbroken();
    NoBreakJoined("Datum:   ", date);
    NoBreakJoined("Start:   ", start);
    NoBreakJoined("Ende:    ", end);
    NoBreakJoined("Dauer:   ", duration);
    RatioLineUnbroken(mp3Duration, ratio);
    DigitsUnbroken(NatToString(width));
    NoBreakJoined("Umbruch: bei Spalte ", NatToString(width));
    ModelDescUnbroken();
    NoBreakJoined("Modell:  ", ModelDesc());
    UnbrokenSeven("Datum:   " + date, "Start:   " + start, "Ende:    " + end,
                  "Dauer:   " + duration, RatioLine(mp3Duration, ratio),
                  "Umbruch: bei Spalte " + NatToString(width), "Modell:  " + ModelDesc());
  }

  lemma UnbrokenSeven(a0: string, a1: string, a2: string, a3: string, a4: string, a5: string,
                      a6: string)
    requires '\n' !in a0 && '\n' !in a1 && '\n' !in a2 && '\n' !in a3 && '\n' !in a4
    requires '\n' !in a5 && '\n' !in a6
    ensures Unbroken([a0, a1, a2, a3, a4, a5, a6])
  {
  }

  lemma RatioLineUnbroken(mp3Duration: real, ratio: string)
    requires '\n' !in ratio
    ensures '\n' !in RatioLine(mp3Duration, ratio)
  {
    if mp3Duration > 0.0 {
      RatioTagUnbroken();
      RatioTailUnbroken();
      NoBreakJoined("Ratio:   ", ratio);
      NoBreakJoined("Ratio:   " + ratio, " % (Transkriptionsdauer / MP3-Dauer)");
    } else {
      RatioUnknownUnbroken();
    }
  }

  lemma TagsUnbroken()
    ensures '\n' !in "Datum:   " && '\n' !in "Start:   " && '\n' !in "Ende:    "
    ensures '\n' !in "Dauer:   " && '\n' !in "Umbruch: bei Spalte " && '\n' !in "Modell:  "
  {
    DatumUnbroken();
    StartUnbroken();
    EndeUnbroken();
    DauerUnbroken();
    UmbruchUnbroken();
    ModellUnbroken();
  }

  lemma DatumUnbroken() ensures '\n' !in "Datum:   " {}
  lemma StartUnbroken() ensures '\n' !in "Start:   " {}
  lemma EndeUnbroken() ensures '\n' !in "Ende:    " {}
  lemma DauerUnbroken() ensures '\n' !in "Dauer:   " {}
  lemma UmbruchUnbroken() ensures '\n' !in "Umbruch: bei Spalte " {}
  lemma ModellUnbroken() ensures '\n' !in "Modell:  " {}
  lemma RatioTagUnbroken() ensures '\n' !in "Ratio:   " {}
  lemma RatioTailUnbroken() ensures '\n' !in " % (Transkriptionsdauer / MP3-Dauer)" {}
  lemma RatioUnknownUnbroken()
    ensures '\n' !in "Ratio: Nicht berechenbar (MP3-Dauer unbekannt)"
  {
    assert "Ratio: Nicht berechenbar (MP3-Dauer unbekannt)"
      == "Ratio: Nicht berechenbar " + "(MP3-Dauer unbekannt)";
    RatioUnknownHead();
    RatioUnknownTail();
    NoBreakJoined("Ratio: Nicht berechenbar ", "(MP3-Dauer unbekannt)");
  }

  lemma RatioUnknownHead() ensures '\n' !in "Ratio: Nicht berechenbar " {}
  lemma RatioUnknownTail() ensures '\n' !in "(MP3-Dauer unbekannt)" {}

  lemma ModelDescUnbroken()
    ensures '\n' !in ModelDesc()
  {
    ModelDescHead();
    ModelDescMiddle();
    ModelDescTail();
    NoBreakJoined("faster-whisper-large-v3: ", "Faster-Whisper mit ");
    NoBreakJoined("faster-whisper-large-v3: " + "Faster-Whisper mit ", "optimiertem CT2-Format");
  }

  lemma ModelDescHead() ensures '\n' !in "faster-whisper-large-v3: " {}
  lemma ModelDescMiddle() ensures '\n' !in "Faster-Whisper mit " {}
  lemma ModelDescTail() ensures '\n' !in "optimiertem CT2-Format" {}

  // ---------------------------------------------------------------------
  // Corrections

  /** The corrections of correct_transcription, applied in this order. */
  function Corrections(): seq<(string, string)>
  {
    [("Seeländer Liebe", "Seele der Liebe"),
     ("Seel der Liebe Gott zum Gruße", "Seele der Liebe, Gott zum Gruße")]
  }

  predicate Patterns(table: seq<(string, string)>)
  {
    forall k :: 0 <= k < |table| ==> table[k].0 != []
  }

  /** Every correction of the table replaces all occurrences in the text the previous
      ones left. */
  function Corrected(s: string, table: seq<(string, string)>): string
    requires Patterns(table)
    decreases |table|
  {
    if table == [] then s else Corrected(ReplaceAll(s, table[0].0, table[0].1), table[1..])
  }

  /** correct_transcription: the text with the two corrections applied one after the
      other. */
  method CorrectTranscription(text: string) returns (r: string)
    ensures r == Corrected(text, Corrections())
  {
    var table := Corrections();
    r := text;
    for k := 0 to |table|
      invariant Corrected(r, table[k..]) == Corrected(text, table)
    {
      assert table[k..][1..] == table[k + 1..];
      r := ReplaceAll(r, table[k].0, table[k].1);
    }
  }

  /** A text that holds none of the wrong spellings is left unchanged. */
  lemma {:induction false} CorrectedAbsent(s: string, table: seq<(string, string)>)
    requires Patterns(table)
    requires forall k :: 0 <= k < |table| ==> !Contains(s, table[k].0)
    ensures Corrected(s, table) == s
    decreases |table|
  {
    if table != [] {
      ReplaceAllAbsent(s, table[0].0, table[0].1);
      CorrectedAbsent(s, table[1..]);
    }
  }

  /** The same for the two corrections of the transcriber. */
  lemma CorrectionsAbsent(s: string)
    requires !Contains(s, "Seeländer Liebe")
    requires !Contains(s, "Seel der Liebe Gott zum Gruße")
    ensures Corrected(s, Corrections()) == s
  {
    CorrectedAbsent(s, Corrections());
  }

  // ---------------------------------------------------------------------
  // Output file

  /** The transcript file name: `os.path.splitext` of the chosen MP3 name, then ".txt". */
  function OutputName(selected: string): string
  {
    SplitExtRoot(selected) + ".txt"
  }

  /** "stem.mp3" is transcribed into "stem.txt". */
  lemma OutputNameOfMp3(stem: string)
    requires stem != [] && '.' !in stem && '/' !in stem
    ensures OutputName(stem + ".mp3") == stem + ".txt"
  {
    var p := stem + ".mp3";
    forall k | |stem| < k < |p| ensures p[k] != '.' {
      assert p[k] == ".mp3"[k - |stem|];
    }
    LastIndexOfIs(p, |stem|, '.');
    assert '/' !in p by {
      forall k | 0 <= k < |p| ensures p[k] != '/' {
        if k < |stem| { assert p[k] == stem[k]; } else { assert p[k] == ".mp3"[k - |stem|]; }
      }
    }
    LastIndexOfAbsent(p, '/');
    assert p[0] == stem[0] && p[0] != '.';
    assert p[..|stem|] == stem;
  }
}
