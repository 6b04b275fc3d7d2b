// client/src/components/TranscriptView.js: the lines the view shows (duplicate stamp
// lines removed, metadata hidden from users who are not administrators), the line that
// playback has reached, how a stamp line gathers its continuation lines, and how an
// edited block or heading is written back into the transcription text. React state,
// refs, timers, scrolling and the rendered markup are not modelled.

module TranscriptView {
  import opened StrUtil
  import Helpers
  import ExportModal

  // ---------------------------------------------------------------------
  // Lines

  /** `^\[(\d{2}:\d{2}:\d{2})\]` matches the line. */
  predicate StampLine(line: string)
  {
    |line| >= 10 && line[0] == '[' && Helpers.IsStamp(line[1..9]) && line[9] == ']'
  }

  /** hours * 3600 + minutes * 60 + seconds of the stamp that opens the line. */
  function Seconds(line: string): nat
    requires StampLine(line)
  {
    Helpers.StampValue(line[1..9])
  }

  /** Nothing but white space, which is when `line.trim()` is empty (`BlankIsTrimEmpty`). */
  predicate Blank(line: string)
  {
    AllWhite(line, JsSpace)
  }

  lemma BlankIsTrimEmpty(line: string)
    ensures Blank(line) <==> Trim(line) == []
  {
    if Blank(line) {
      BlankTrimsAway(line);
    }
    if Trim(line) == [] {
      TrimmedAwayBlank(line);
    }
  }

  lemma BlankTrimsAway(line: string)
    requires Blank(line)
    ensures TrimStart(line, JsSpace) == []
  {
    var t := TrimStart(line, JsSpace);
    TrimStartStops(line, JsSpace);
  }

  lemma TrimmedAwayBlank(line: string)
    requires Trim(line) == []
    ensures Blank(line)
  {
    var t := TrimStart(line, JsSpace);
    var w := |line| - |t|;
    TrimStartDropsWhite(line, JsSpace);
    TrimEndSpec(t, JsSpace);
    assert t[0..] == t;
    forall k | 0 <= k < |line| ensures White(JsSpace, line[k]) {
      if k >= w {
        assert line[k] == t[k - w];
      } else {
        assert line[k] == line[..w][k];
      }
    }
  }

  /** The lines the view and the playback tracker work on: CRLF, then any remaining CR,
      become LF before splitting. */
  function ViewLines(text: string): seq<string>
  {
    Split(ReplaceAll(ReplaceAll(text, "\r\n", "\n"), "\r", "\n"), '\n')
  }

  // ---------------------------------------------------------------------
  // Duplicate stamp lines

  /** What duplicate removal compares a line by: the trimmed text of a non-blank stamp
      line (`KeyIsTrimmed`); other lines take no part. A stamp line starts with '[', so
      trimming only takes white space off its end. */
  function Key(line: string): Option<string>
  {
    if StampLine(line) then Some(TrimEnd(line, JsSpace)) else None
  }

  lemma KeyIsTrimmed(line: string)
    ensures Key(line) == if Trim(line) != [] && StampLine(line) then Some(Trim(line)) else None
  {
    if StampLine(line) {
      assert TrimStart(line, JsSpace) == line;
      TrimEndSpec(line, JsSpace);
      assert line[0..] == line;
    }
  }

  /** The keys of all lines. */
  function Keys(lines: seq<string>): (r: seq<Option<string>>)
    ensures |r| == |lines| && forall i :: 0 <= i < |lines| ==> r[i] == Key(lines[i])
  {
    seq(|lines|, i requires 0 <= i < |lines| => Key(lines[i]))
  }

  /** Key `i` is present and comes back later, before `n`. */
  predicate Repeated(keys: seq<Option<string>>, i: nat, n: nat)
    requires i < |keys| && n <= |keys|
  {
    keys[i].Some? && exists j :: i < j < n && keys[j] == keys[i]
  }

  /** Line `i` has a key and one of the lines after it, before `n`, has the same key. */
  predicate Superseded(lines: seq<string>, i: nat, n: nat)
    requires i < |lines| && n <= |lines|
  {
    Repeated(Keys(lines), i, n)
  }

  /** The first `n` lines without those a later line supersedes. */
  function Survivors(lines: seq<string>, n: nat): seq<string>
    requires n <= |lines|
  {
    if n == 0 then []
    else Survivors(lines, n - 1) + (if Superseded(lines, n - 1, |lines|) then [] else [lines[n - 1]])
  }

  /** Every line except stamp lines whose trimmed text a later stamp line repeats. */
  function Deduplicated(lines: seq<string>): seq<string>
  {
    Survivors(lines, |lines|)
  }

  /** No two lines share a key. */
  predicate NoRepeats(lines: seq<string>)
  {
    forall a, b :: 0 <= a < b < |lines| && Key(lines[a]).Some? ==> Key(lines[a]) != Key(lines[b])
  }

  /** The duplicate removal of the view: the indices to skip, then a filter. */
  method RemoveDuplicates(lines: seq<string>) returns (kept: seq<string>)
    ensures kept == Deduplicated(lines)
  {
    var skip := SkipIndices(lines);
    kept := [];
    var n := 0;
    while n < |lines|
      invariant 0 <= n <= |lines|
      invariant kept == Survivors(lines, n)
    {
      if n !in skip {
        kept := kept + [lines[n]];
      }
      n := n + 1;
    }
  }

  /** The first pass of duplicate removal: a map from trimmed text to the last index
      seen so far; an index is skipped when its text comes back. */
  method SkipIndices(lines: seq<string>) returns (skip: set<nat>)
    ensures forall j :: 0 <= j < |lines| ==> (j in skip <==> Superseded(lines, j, |lines|))
  {
    ghost var keys := Keys(lines);
    var lineCounts: map<string, nat> := map[];
    skip := {};
    var i := 0;
    while i < |lines|
      invariant 0 <= i <= |lines|
      invariant forall t :: t in lineCounts ==>
        lineCounts[t] < i && keys[lineCounts[t]] == Some(t) && !Repeated(keys, lineCounts[t], i)
      invariant forall j :: 0 <= j < i && keys[j].Some? ==> keys[j].value in lineCounts
      invariant forall j :: j in skip ==> j < i
      invariant forall j :: 0 <= j < i ==> (j in skip <==> Repeated(keys, j, i))
    {
      var key := Key(lines[i]);
      assert key == keys[i];
      ghost var counts0, skip0 := lineCounts, skip;
      if key.Some? {
        var t := key.value;
        if t in lineCounts {
          skip := skip + {lineCounts[t]};
        }
        lineCounts := lineCounts[t := i];
      }
      SkipStep(keys, i, counts0, skip0, lineCounts, skip);
      i := i + 1;
    }
  }

  /** One pass of the first loop keeps the skipped set exact: the index a key was last
      seen at is skipped when the key comes back at `i`. */
  lemma SkipStep(keys: seq<Option<string>>, i: nat, counts0: map<string, nat>, skip0: set<nat>,
                 counts: map<string, nat>, skip: set<nat>)
    requires i < |keys|
    requires forall t :: t in counts0 ==>
      counts0[t] < i && keys[counts0[t]] == Some(t) && !Repeated(keys, counts0[t], i)
    requires forall j :: 0 <= j < i && keys[j].Some? ==> keys[j].value in counts0
    requires forall j :: j in skip0 ==> j < i
    requires forall j :: 0 <= j < i ==> (j in skip0 <==> Repeated(keys, j, i))
    requires keys[i].None? ==> counts == counts0 && skip == skip0
    requires keys[i].Some? ==>
      (counts == counts0[keys[i].value := i]
       && skip == (if keys[i].value in counts0 then skip0 + {counts0[keys[i].value]} else skip0))
    ensures forall t :: t in counts ==>
      counts[t] < i + 1 && keys[counts[t]] == Some(t) && !Repeated(keys, counts[t], i + 1)
    ensures forall j :: 0 <= j < i + 1 && keys[j].Some? ==> keys[j].value in counts
    ensures forall j :: j in skip ==> j < i + 1
    ensures forall j :: 0 <= j < i + 1 ==> (j in skip <==> Repeated(keys, j, i + 1))
  {
    forall t | t in counts
      ensures counts[t] < i + 1 && keys[counts[t]] == Some(t) && !Repeated(keys, counts[t], i + 1)
    {
      if counts[t] != i {
        RepeatedStep(keys, counts[t], i);
      }
    }
    forall j | 0 <= j < i
      ensures j in skip <==> Repeated(keys, j, i + 1)
    {
      RepeatedStep(keys, j, i);
      if keys[i].Some? && keys[j] == keys[i] && !Repeated(keys, j, i) {
        var t := keys[i].value;
        var c := counts0[t];
        assert keys[c] == keys[j] && !Repeated(keys, c, i);
        assert c == j;
      }
    }
  }

  /** Key `j` comes back before `i + 1` when it comes back before `i` or at `i`. */
  lemma RepeatedStep(keys: seq<Option<string>>, j: nat, i: nat)
    requires j < i < |keys|
    ensures Repeated(keys, j, i + 1) <==> Repeated(keys, j, i) || (keys[j].Some? && keys[i] == keys[j])
  {
  }

  /** The survivors among the first `n` lines repeat no key, and no key of theirs comes
      back from line `n` on. */
  lemma {:induction false} SurvivorsFacts(lines: seq<string>, n: nat)
    requires n <= |lines|
    ensures NoRepeats(Survivors(lines, n))
    ensures forall a, j :: 0 <= a < |Survivors(lines, n)| && n <= j < |lines| && Key(Survivors(lines, n)[a]).Some? ==>
      Key(lines[j]) != Key(Survivors(lines, n)[a])
  {
    if n > 0 {
      SurvivorsFacts(lines, n - 1);
      var front := Survivors(lines, n - 1);
      var x := lines[n - 1];
      if !Superseded(lines, n - 1, |lines|) {
        var s := front + [x];
        assert Survivors(lines, n) == s;
        forall a, b | 0 <= a < b < |s| && Key(s[a]).Some?
          ensures Key(s[a]) != Key(s[b])
        {
          if b == |front| {
            assert Key(lines[n - 1]) != Key(front[a]);
          } else {
            assert s[a] == front[a] && s[b] == front[b];
          }
        }
      }
    }
  }

  /** A line no later line supersedes survives. */
  lemma {:induction false} SurvivorIn(lines: seq<string>, n: nat, i: nat)
    requires i < n <= |lines| && !Superseded(lines, i, |lines|)
    ensures lines[i] in Survivors(lines, n)
  {
    if i < n - 1 {
      SurvivorIn(lines, n - 1, i);
    }
  }

  /** After duplicate removal no two stamp lines have the same trimmed text. */
  lemma DeduplicatedNoRepeats(lines: seq<string>)
    ensures NoRepeats(Deduplicated(lines))
  {
    SurvivorsFacts(lines, |lines|);
  }

  /** Every trimmed stamp text of the input is still shown: its last occurrence survives. */
  lemma {:induction false} KeyKept(lines: seq<string>, i: nat)
    requires i < |lines| && Key(lines[i]).Some?
    ensures exists x :: x in Deduplicated(lines) && Key(x) == Key(lines[i])
    decreases |lines| - i
  {
    if Superseded(lines, i, |lines|) {
      var j :| i < j < |lines| && Keys(lines)[j] == Keys(lines)[i];
      KeyKept(lines, j);
    } else {
      SurvivorIn(lines, |lines|, i);
    }
  }

  /** A line that is not a non-blank stamp line. */
  predicate Unkeyed(line: string)
  {
    Key(line).None?
  }

  lemma {:induction false} SurvivorsKeepUnkeyed(lines: seq<string>, n: nat)
    requires n <= |lines|
    ensures Filter(Survivors(lines, n), Unkeyed) == Filter(lines[..n], Unkeyed)
  {
    if n > 0 {
      SurvivorsKeepUnkeyed(lines, n - 1);
      var x := lines[n - 1];
      var tail := if Superseded(lines, n - 1, |lines|) then [] else [x];
      FilterAppend(Survivors(lines, n - 1), tail, Unkeyed);
      assert lines[..n][..n - 1] == lines[..n - 1];
      if tail == [x] {
        assert Filter(tail, Unkeyed) == Filter([], Unkeyed) + (if Unkeyed(x) then [x] else []);
      }
    }
  }

  /** All other lines are kept, in their order. */
  lemma UnkeyedLinesKept(lines: seq<string>)
    ensures Filter(Deduplicated(lines), Unkeyed) == Filter(lines, Unkeyed)
  {
    SurvivorsKeepUnkeyed(lines, |lines|);
    assert lines[..|lines|] == lines;
  }

  lemma {:induction false} SurvivorsAll(lines: seq<string>, n: nat)
    requires n <= |lines| && NoRepeats(lines)
    ensures Survivors(lines, n) == lines[..n]
  {
    if n > 0 {
      SurvivorsAll(lines, n - 1);
      assert !Superseded(lines, n - 1, |lines|);
      assert lines[..n] == lines[..n - 1] + [lines[n - 1]];
    }
  }

  /** Removing duplicates twice is removing them once. */
  lemma DeduplicateIdempotent(lines: seq<string>)
    ensures Deduplicated(Deduplicated(lines)) == Deduplicated(lines)
  {
    var d := Deduplicated(lines);
    DeduplicatedNoRepeats(lines);
    SurvivorsAll(d, |d|);
    assert d[..|d|] == d;
  }

  // ---------------------------------------------------------------------
  // The lines on screen

  /** Duplicates removed, then for users who are not administrators the hidden metadata
      lines too; the playback tracker numbers the same lines. */
  function DisplayLines(text: string, isAdmin: bool): seq<string>
  {
    var lines := Deduplicated(ViewLines(text));
    if isAdmin then lines else Filter(lines, ExportModal.Shown)
  }

  /** Administrators see every line left after duplicate removal; everybody else exactly
      those of them that no hidden prefix starts, in the same order. */
  lemma DisplayFilter(text: string, x: string)
    ensures DisplayLines(text, true) == Deduplicated(ViewLines(text))
    ensures x in DisplayLines(text, false) <==> x in Deduplicated(ViewLines(text)) && ExportModal.Shown(x)
    ensures |DisplayLines(text, false)| <= |DisplayLines(text, true)|
  {
    FilterMembers(Deduplicated(ViewLines(text)), ExportModal.Shown, x);
  }

  // ---------------------------------------------------------------------
  // The line playback has reached

  /** Line `i` is a stamp line whose time has been reached. */
  predicate Reached(lines: seq<string>, time: int, i: nat)
    requires i < |lines|
  {
    StampLine(lines[i]) && Seconds(lines[i]) <= time
  }

  /** The playback tracker: among the stamp lines whose time has been reached, the first
      of those with the latest time, and its `[hh:mm:ss]`. The audio position is given in
      whole seconds; stamps are whole seconds, so its fraction changes nothing. */
  method CurrentLine(lines: seq<string>, time: int) returns (index: Option<nat>, stamp: Option<string>)
    ensures index.None? <==> forall i :: 0 <= i < |lines| ==> !Reached(lines, time, i)
    ensures index.Some? ==> index.value < |lines| && Reached(lines, time, index.value)
    ensures index.Some? ==> forall i :: 0 <= i < |lines| && Reached(lines, time, i) ==>
      Seconds(lines[i]) <= Seconds(lines[index.value])
    ensures index.Some? ==> forall i :: 0 <= i < index.value && Reached(lines, time, i) ==>
      Seconds(lines[i]) < Seconds(lines[index.value])
    ensures stamp == if index.Some? then Some(lines[index.value][..10]) else None
  {
    var closestTime := -1;
    index, stamp := None, None;
    var idx := 0;
    while idx < |lines|
      invariant 0 <= idx <= |lines|
      invariant index.None? ==> closestTime == -1 && forall i :: 0 <= i < idx ==> !Reached(lines, time, i)
      invariant index.Some? ==> index.value < idx && Reached(lines, time, index.value)
      invariant index.Some? ==> closestTime == Seconds(lines[index.value]) && stamp == Some(lines[index.value][..10])
      invariant index.Some? ==> forall i :: 0 <= i < idx && Reached(lines, time, i) ==> Seconds(lines[i]) <= closestTime
      invariant index.Some? ==> forall i :: 0 <= i < index.value && Reached(lines, time, i) ==> Seconds(lines[i]) < closestTime
      invariant index.None? ==> stamp.None?
    {
      var line := lines[idx];
      if StampLine(line) {
        var timestamp := Seconds(line);
        if timestamp <= time && timestamp > closestTime {
          closestTime := timestamp;
          stamp := Some(line[..10]);
          index := Some(idx);
        }
      }
      idx := idx + 1;
    }
  }

  // ---------------------------------------------------------------------
  // Blocks: a stamp line and its continuation lines

  const Dashes: string := "----------"

  /** The number of dashes that open `s`. */
  function LeadingDashes(s: string): (n: nat)
    ensures n <= |s| && (forall k :: 0 <= k < n ==> s[k] == '-') && (n < |s| ==> s[n] != '-')
  {
    if s != [] && s[0] == '-' then 1 + LeadingDashes(s[1..]) else 0
  }

  /** `^-{10,}\s+.+$`: the dashes cannot give any back, since `\s` never matches '-'. */
  predicate HeadingLine(line: string)
  {
    var d := LeadingDashes(line);
    d >= 10 && d < |line| && White(JsSpace, line[d]) && Helpers.MatchTail(line[d + 1..]).Some?
  }

  /** A line that closes a block. Rendering takes a rule only as a heading
      `^-{10,}\s+.+$`; saving takes any line that starts with ten dashes. */
  predicate BlockEnd(line: string, rendering: bool)
  {
    StampLine(line) || (if rendering then HeadingLine(line) else StartsWith(line, Dashes))
    || StartsWith(line, "\U{2550}")
  }

  /** Every heading is also a rule for saving. */
  lemma HeadingIsRule(line: string)
    ensures BlockEnd(line, true) ==> BlockEnd(line, false)
  {
    if HeadingLine(line) {
      assert line[..10] == Dashes;
    }
  }

  /** A line of dashes alone is no heading: nothing follows the dashes. */
  lemma DashesNoHeading(line: string)
    requires forall k :: 0 <= k < |line| ==> line[k] == '-'
    ensures !HeadingLine(line)
  {
  }

  /** So a bare rule of ten dashes closes a block for saving but not for rendering. */
  lemma BareRuleEndsSavingOnly()
    ensures !BlockEnd(Dashes, true) && BlockEnd(Dashes, false)
  {
    assert forall k :: 0 <= k < |Dashes| ==> Dashes[k] == '-';
    DashesNoHeading(Dashes);
    assert Dashes[..10] == Dashes;
  }

  /** The first line from `from` on that closes a block, or the end. */
  function FirstEnd(lines: seq<string>, from: nat, rendering: bool): (e: nat)
    requires from <= |lines|
    ensures from <= e <= |lines|
    ensures forall k :: from <= k < e ==> !BlockEnd(lines[k], rendering)
    ensures e < |lines| ==> BlockEnd(lines[e], rendering)
    decreases |lines| - from
  {
    if from == |lines| || BlockEnd(lines[from], rendering) then from
    else FirstEnd(lines, from + 1, rendering)
  }

  /** `e` with the blank lines just before it, down to `from`, given back. */
  function DropTrailingBlanks(lines: seq<string>, from: nat, e: nat): (r: nat)
    requires from <= e <= |lines|
    ensures from <= r <= e
    ensures forall k :: r <= k < e ==> Blank(lines[k])
    ensures r == from || !Blank(lines[r - 1])
    decreases e
  {
    if e > from && Blank(lines[e - 1]) then DropTrailingBlanks(lines, from, e - 1) else e
  }

  /** Where the continuation lines of line `i` end and rendering resumes: after every
      line up to the next one that closes a block for rendering, except the blank lines
      just before it. */
  function ContinuationEnd(lines: seq<string>, i: nat): (next: nat)
    requires i < |lines|
    ensures i < next <= |lines|
    ensures forall k :: i < k < next ==> !BlockEnd(lines[k], true)
    ensures next == i + 1 || !Blank(lines[next - 1])
    ensures forall k :: next <= k < FirstEnd(lines, i + 1, true) ==> Blank(lines[k])
  {
    DropTrailingBlanks(lines, i + 1, FirstEnd(lines, i + 1, true))
  }

  /** Rendering gathers the lines after stamp line `i` up to the next stamp line, heading
      or `═` line, drops the blank lines at their end, and resumes after the rest. */
  method Continuations(lines: seq<string>, i: nat) returns (conts: seq<string>, next: nat)
    requires i < |lines|
    ensures next == ContinuationEnd(lines, i) && conts == lines[i + 1..next]
  {
    var j;
    conts, j := GatherRun(lines, i);
    conts, next := DropBlankTail(lines, i + 1, conts, j);
  }

  /** The first loop of the grouping: every line up to the next one closing a block. */
  method GatherRun(lines: seq<string>, i: nat) returns (conts: seq<string>, j: nat)
    requires i < |lines|
    ensures j == FirstEnd(lines, i + 1, true) && conts == lines[i + 1..j]
  {
    conts := [];
    j := i + 1;
    while j < |lines|
      invariant i + 1 <= j <= |lines|
      invariant conts == lines[i + 1..j]
      invariant forall k :: i + 1 <= k < j ==> !BlockEnd(lines[k], true)
    {
      if BlockEnd(lines[j], true) {
        break;
      }
      conts := conts + [lines[j]];
      j := j + 1;
    }
  }

  /** The second loop of the grouping: blank lines at the end are popped. */
  method DropBlankTail(lines: seq<string>, from: nat, run: seq<string>, e: nat) returns (conts: seq<string>, j: nat)
    requires from <= e <= |lines| && run == lines[from..e]
    ensures j == DropTrailingBlanks(lines, from, e) && conts == lines[from..j]
  {
    conts, j := run, e;
    while |conts| > 0 && Blank(conts[|conts| - 1])
      invariant from <= j <= e && conts == lines[from..j]
      invariant DropTrailingBlanks(lines, from, j) == DropTrailingBlanks(lines, from, e)
    {
      conts := conts[..|conts| - 1];
      j := j - 1;
    }
  }

  // ---------------------------------------------------------------------
  // Saving an edited block

  /** A line after which stamp lines may be edited: it contains "Gesamtzusammenfassung:"
      or starts with `===`. */
  predicate Mark(line: string)
  {
    Contains(line, "Gesamtzusammenfassung:") || StartsWith(line, "===")
  }

  /** One of the first `n` lines is a mark. */
  predicate MarkWithin(lines: seq<string>, n: nat)
    requires n <= |lines|
  {
    exists h :: 0 <= h < n && Mark(lines[h])
  }

  /** Line `j` starts with `[ts]` and a mark comes at or before it. */
  predicate Eligible(lines: seq<string>, full: string, j: nat)
    requires j < |lines|
  {
    StartsWith(lines[j], full) && MarkWithin(lines, j + 1)
  }

  function FirstEligibleFrom(lines: seq<string>, full: string, from: nat, passed: bool): (r: Option<nat>)
    requires from <= |lines| && (passed <==> MarkWithin(lines, from))
    ensures r.Some? ==> from <= r.value < |lines| && Eligible(lines, full, r.value)
    ensures r.Some? ==> forall j :: from <= j < r.value ==> !Eligible(lines, full, j)
    ensures r.None? ==> forall j :: from <= j < |lines| ==> !Eligible(lines, full, j)
    decreases |lines| - from
  {
    if from == |lines| then None
    else
      var p := passed || Mark(lines[from]);
      if p && StartsWith(lines[from], full) then Some(from)
      else FirstEligibleFrom(lines, full, from + 1, p)
  }

  /** The line a block edit is written to: the first line starting with `[ts]` at or
      after the first mark; there is none when no line is a mark. */
  function FirstEligible(lines: seq<string>, full: string): (r: Option<nat>)
    ensures r.Some? ==> r.value < |lines| && Eligible(lines, full, r.value)
    ensures r.Some? ==> forall j :: 0 <= j < r.value ==> !Eligible(lines, full, j)
    ensures r.None? <==> forall j :: 0 <= j < |lines| ==> !Eligible(lines, full, j)
    ensures !MarkWithin(lines, |lines|) ==> r.None?
  {
    FirstEligibleFrom(lines, full, 0, false)
  }

  /** `newRawLines`: line `f` becomes `[ts] ` + the first edited line, the run after it
      up to the next line that closes a block is replaced by the other edited lines. */
  function SavedLines(lines: seq<string>, edited: seq<string>, full: string): Option<seq<string>>
    requires |edited| >= 1
  {
    match FirstEligible(lines, full)
    case None => None
    case Some(f) =>
      Some(lines[..f] + [full + " " + edited[0]] + edited[1..] + lines[FirstEnd(lines, f + 1, false)..])
  }

  /** The lines a block edit works on: CRLF becomes LF before splitting. */
  function RawLines(transcription: string): seq<string>
  {
    Split(ReplaceAll(transcription, "\r\n", "\n"), '\n')
  }

  /** The text passed on by `saveCurrentEdit`, or None when it passes nothing on. */
  function SavedText(transcription: string, edited: Option<string>, timestamp: string, original: Option<string>)
    : Option<string>
  {
    if edited.None? || original == edited then None
    else
      match SavedLines(RawLines(transcription), Split(edited.value, '\n'), "[" + timestamp + "]")
      case None => None
      case Some(ls) => Some(Join(ls, "\n"))
  }

  /** `saveCurrentEdit`: nothing is passed on when there is no edit, when it equals the
      text the edit started from, or when no stamp line after a mark carries the stamp. */
  method SaveEdit(transcription: string, edited: Option<string>, timestamp: string, original: Option<string>)
    returns (r: Option<string>)
    ensures edited.None? || original == edited ==> r.None?
    ensures !MarkWithin(RawLines(transcription), |RawLines(transcription)|) ==> r.None?
    ensures r == SavedText(transcription, edited, timestamp, original)
  {
    if edited.None? {
      return None;
    }
    var editedText := edited.value;
    if original.Some? && editedText == original.value {
      return None;
    }
    var editedLines := Split(editedText, '\n');
    var full := "[" + timestamp + "]";
    var rawLines := Split(ReplaceAll(transcription, "\r\n", "\n"), '\n');
    var found := FindBlock(rawLines, full);
    if found.None? {
      return None;
    }
    var f := found.value;
    var k := CountRun(rawLines, f + 1);
    var newRawLines := rawLines[..f] + [full + " " + editedLines[0]] + editedLines[1..] + rawLines[k..];
    r := Some(Join(newRawLines, "\n"));
  }

  /** The counting loop of `saveCurrentEdit`: the lines from `from` up to the next stamp
      line, line starting with ten dashes, or `═` line. */
  method CountRun(lines: seq<string>, from: nat) returns (k: nat)
    requires from <= |lines|
    ensures k == FirstEnd(lines, from, false)
  {
    k := from;
    while k < |lines|
      invariant from <= k <= |lines|
      invariant forall m :: from <= m < k ==> !BlockEnd(lines[m], false)
    {
      var nextLine := lines[k];
      if StampLine(nextLine) || StartsWith(nextLine, Dashes) || StartsWith(nextLine, "\U{2550}") {
        break;
      }
      k := k + 1;
    }
  }

  /** The search loop of `saveCurrentEdit`. */
  method FindBlock(lines: seq<string>, full: string) returns (found: Option<nat>)
    ensures found == FirstEligible(lines, full)
  {
    var headerPassed := false;
    var i := 0;
    while i < |lines|
      invariant 0 <= i <= |lines|
      invariant headerPassed <==> MarkWithin(lines, i)
      invariant forall j :: 0 <= j < i ==> !Eligible(lines, full, j)
    {
      if Contains(lines[i], "Gesamtzusammenfassung:") || StartsWith(lines[i], "===") {
        headerPassed := true;
      }
      assert headerPassed <==> MarkWithin(lines, i + 1) by {
        if Mark(lines[i]) {
          assert 0 <= i < i + 1 && Mark(lines[i]);
        }
      }
      if headerPassed && StartsWith(lines[i], full) {
        assert Eligible(lines, full, i);
        return Some(i);
      }
      i := i + 1;
    }
    return None;
  }

  lemma StampFree(timestamp: string, c: char)
    requires Helpers.IsStamp(timestamp) && !IsDigit(c) && c != ':' && c != '[' && c != ']' && c != ' '
    ensures c !in "[" + timestamp + "]" + " "
  {
    var full := "[" + timestamp + "]" + " ";
    forall k | 0 <= k < |full| ensures full[k] != c {
      if 1 <= k < 9 {
        assert full[k] == timestamp[k - 1];
      }
    }
  }

  /** Read back line by line, a saved text is the spliced lines: the lines before the
      block and after its run are unchanged, the block holds the edited lines. */
  lemma SavedTextLines(transcription: string, edited: Option<string>, timestamp: string, original: Option<string>)
    requires Helpers.IsStamp(timestamp)
    ensures SavedText(transcription, edited, timestamp, original).Some? ==>
      Split(SavedText(transcription, edited, timestamp, original).value, '\n')
      == SavedLines(RawLines(transcription), Split(edited.value, '\n'), "[" + timestamp + "]").value
  {
    if SavedText(transcription, edited, timestamp, original).Some? {
      var lines := RawLines(transcription);
      var ed := Split(edited.value, '\n');
      var full := "[" + timestamp + "]";
      SplitPiecesFree(ReplaceAll(transcription, "\r\n", "\n"), '\n');
      SplitPiecesFree(edited.value, '\n');
      StampFree(timestamp, '\n');
      SavedLinesUnbroken(lines, ed, full);
      SplitJoin(SavedLines(lines, ed, full).value, '\n');
    }
  }

  /** Saved lines hold no line break when the lines, the edit and the stamp hold none. */
  lemma SavedLinesUnbroken(lines: seq<string>, ed: seq<string>, full: string)
    requires |ed| >= 1 && SavedLines(lines, ed, full).Some?
    requires forall k :: 0 <= k < |lines| ==> '\n' !in lines[k]
    requires forall k :: 0 <= k < |ed| ==> '\n' !in ed[k]
    requires '\n' !in full + " "
    ensures forall k :: 0 <= k < |SavedLines(lines, ed, full).value| ==> '\n' !in SavedLines(lines, ed, full).value[k]
  {
    var f := FirstEligible(lines, full).value;
    var e := FirstEnd(lines, f + 1, false);
    var ls := SavedLines(lines, ed, full).value;
    var head := full + " " + ed[0];
    assert head == (full + " ") + ed[0];
    forall k | 0 <= k < |ls| ensures '\n' !in ls[k] {
      if k < f {
        assert ls[k] == lines[k];
      } else if k == f {
        assert ls[k] == head;
      } else if k < f + |ed| {
        assert ls[k] == ed[k - f];
      } else {
        assert ls[k] == lines[e + k - f - |ed|];
      }
    }
  }

  /** Saving the edit buffer of a block with only its first line changed, when rendering
      and saving end the block at the same line: the blank lines the buffer left out at
      the end of the block are gone from the saved lines. The view builds the buffer from
      the lines as displayed while the save searches the raw text; here both are `lines`,
      so the lemma covers the case where the two agree: the administrator's view, no
      duplicate stamp lines and no bare carriage return in the text. */
  lemma TrailingBlanksLost(lines: seq<string>, full: string, f: nat, main: string)
    requires FirstEligible(lines, full) == Some(f)
    requires FirstEnd(lines, f + 1, true) == FirstEnd(lines, f + 1, false)
    ensures var next := ContinuationEnd(lines, f);
      var e := FirstEnd(lines, f + 1, false);
      SavedLines(lines, [main] + lines[f + 1..next], full)
        == Some(lines[..f] + [full + " " + main] + lines[f + 1..next] + lines[e..])
      && (forall k :: next <= k < e ==> Blank(lines[k]))
  {
    var next := ContinuationEnd(lines, f);
    var edited := [main] + lines[f + 1..next];
    assert edited[0] == main && edited[1..] == lines[f + 1..next];
  }

  /** Saving the edit buffer of a block whose first continuation line is a bare rule of
      ten dashes: rendering puts the rule and the lines after it into the buffer, saving
      replaces nothing after the stamp line, so those lines are written twice. */
  lemma BareRuleWrittenTwice(lines: seq<string>, full: string, f: nat, main: string)
    requires FirstEligible(lines, full) == Some(f)
    requires f + 1 < |lines| && lines[f + 1] == Dashes
    ensures var next := ContinuationEnd(lines, f);
      f + 1 < next
      && SavedLines(lines, [main] + lines[f + 1..next], full)
        == Some(lines[..f] + [full + " " + main] + lines[f + 1..next] + lines[f + 1..])
  {
    BareRuleEndsSavingOnly();
    assert FirstEnd(lines, f + 1, false) == f + 1;
    assert !Blank(lines[f + 1]) by {
      assert !White(JsSpace, Dashes[0]);
    }
    var next := ContinuationEnd(lines, f);
    var edited := [main] + lines[f + 1..next];
    assert edited[0] == main && edited[1..] == lines[f + 1..next];
  }

  // ---------------------------------------------------------------------
  // Saving an edited heading

  /** What `saveCurrentHeaderEdit` searches for and writes: ten dashes and one space. */
  const RulePrefix: string := "---------- "

  /** The first line containing `pattern`. */
  function FirstContaining(lines: seq<string>, pattern: string): (r: Option<nat>)
    ensures r.Some? ==> r.value < |lines| && Contains(lines[r.value], pattern)
    ensures r.Some? ==> forall j :: 0 <= j < r.value ==> !Contains(lines[j], pattern)
    ensures r.None? <==> forall j :: 0 <= j < |lines| ==> !Contains(lines[j], pattern)
    decreases |lines|
  {
    if lines == [] then None
    else if Contains(lines[0], pattern) then Some(0)
    else match FirstContaining(lines[1..], pattern)
      case None => None
      case Some(i) => Some(i + 1)
  }

  /** The text passed on by `saveCurrentHeaderEdit`, or None when it passes nothing on. */
  function SavedHeading(transcription: string, key: Option<string>, edited: Option<string>, original: Option<string>)
    : Option<string>
  {
    if key.None? || edited.None? || original == edited then None
    else
      var lines := Split(transcription, '\n');
      match FirstContaining(lines, RulePrefix + key.value)
      case None => None
      case Some(f) => Some(Join(lines[f := RulePrefix + edited.value], "\n"))
  }

  /** `saveCurrentHeaderEdit`: the first line containing ten dashes, one space and the
      heading's key is replaced as a whole by ten dashes, one space and the edited text;
      the text is split at LF only. */
  method SaveHeadingEdit(transcription: string, key: Option<string>, edited: Option<string>, original: Option<string>)
    returns (r: Option<string>)
    ensures key.None? || edited.None? || original == edited ==> r.None?
    ensures r == SavedHeading(transcription, key, edited, original)
  {
    if key.None? || edited.None? {
      return None;
    }
    if original.Some? && edited.value == original.value {
      return None;
    }
    var lines := Split(transcription, '\n');
    var searchPattern := RulePrefix + key.value;
    var foundIndex: Option<nat> := None;
    var i := 0;
    while i < |lines|
      invariant 0 <= i <= |lines|
      invariant forall j :: 0 <= j < i ==> !Contains(lines[j], searchPattern)
    {
      if Contains(lines[i], searchPattern) {
        foundIndex := Some(i);
        break;
      }
      i := i + 1;
    }
    if foundIndex.None? {
      return None;
    }
    r := Some(Join(lines[foundIndex.value := RulePrefix + edited.value], "\n"));
  }

  /** Read back line by line, a saved heading changes exactly the line found. */
  lemma SavedHeadingLines(transcription: string, key: Option<string>, edited: Option<string>, original: Option<string>)
    requires edited.Some? ==> '\n' !in edited.value
    ensures SavedHeading(transcription, key, edited, original).Some? ==>
      var lines := Split(transcription, '\n');
      var f := FirstContaining(lines, RulePrefix + key.value).value;
      Split(SavedHeading(transcription, key, edited, original).value, '\n') == lines[f := RulePrefix + edited.value]
  {
    if SavedHeading(transcription, key, edited, original).Some? {
      var lines := Split(transcription, '\n');
      var f := FirstContaining(lines, RulePrefix + key.value).value;
      var ls := lines[f := RulePrefix + edited.value];
      SplitPiecesFree(transcription, '\n');
      assert '\n' !in RulePrefix;
      forall k | 0 <= k < |ls| ensures '\n' !in ls[k] {
        if k != f {
          assert ls[k] == lines[k];
        }
      }
      SplitJoin(ls, '\n');
    }
  }

  /** A heading written with two spaces after the dashes does not contain the search
      pattern for its own key, whose first character is not a space. */
  lemma TwoSpaceHeadingMissed(key: string)
    requires key != [] && key[0] != ' '
    ensures !Contains("---------- " + " " + key, RulePrefix + key)
  {
    var line := "---------- " + " " + key;
    var p := RulePrefix + key;
    forall i | 0 <= i <= |line| ensures !OccursAt(line, p, i) {
      if i == 0 {
        assert line[11] == ' ' && p[11] == key[0];
      } else if i == 1 {
        assert line[10] == ' ' && p[9] == '-';
      }
    }
  }

  /** So editing such a heading passes nothing on when no other line contains the
      pattern: the text stays as it is. */
  lemma TwoSpaceHeadingEditLost(before: seq<string>, key: string, after: seq<string>, edited: string, original: Option<string>)
    requires key != [] && key[0] != ' ' && '\n' !in key
    requires forall k :: 0 <= k < |before| ==> '\n' !in before[k] && !Contains(before[k], RulePrefix + key)
    requires forall k :: 0 <= k < |after| ==> '\n' !in after[k] && !Contains(after[k], RulePrefix + key)
    ensures SavedHeading(Join(before + ["---------- " + " " + key] + after, "\n"), Some(key), Some(edited), original).None?
  {
    var heading := "---------- " + " " + key;
    var lines := before + [heading] + after;
    HeadingFree(key);
    TwoSpaceHeadingMissed(key);
    AroundHeading(before, heading, after, RulePrefix + key);
    SplitJoin(lines, '\n');
  }

  lemma HeadingFree(key: string)
    requires '\n' !in key
    ensures '\n' !in "---------- " + " " + key
  {
    var heading := "---------- " + " " + key;
    forall k | 0 <= k < |heading| ensures heading[k] != '\n' {
      if k >= 12 {
        assert heading[k] == key[k - 12];
      }
    }
  }

  lemma AroundHeading(before: seq<string>, heading: string, after: seq<string>, pattern: string)
    requires '\n' !in heading && !Contains(heading, pattern)
    requires forall k :: 0 <= k < |before| ==> '\n' !in before[k] && !Contains(before[k], pattern)
    requires forall k :: 0 <= k < |after| ==> '\n' !in after[k] && !Contains(after[k], pattern)
    ensures var lines := before + [heading] + after;
      forall k :: 0 <= k < |lines| ==> '\n' !in lines[k] && !Contains(lines[k], pattern)
  {
    var lines := before + [heading] + after;
    forall k | 0 <= k < |lines| ensures '\n' !in lines[k] && !Contains(lines[k], pattern) {
      if k < |before| {
        assert lines[k] == before[k];
      } else if k > |before| {
        assert lines[k] == after[k - |before| - 1];
      }
    }
  }
}
