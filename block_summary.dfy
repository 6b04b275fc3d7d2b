/** The block summariser of the command-line tool: a transcript is cut into a header
    and overlapping windows of lines, each window is summarised in one sentence by a
    language model, and the summaries are assembled with the transcript into one
    document. The model and its chat template are uninterpreted functions. */
module BlockSummary {
  import opened StrUtil
  import Helpers

  // ---------------------------------------------------------------------
  // Timestamps

  /** `format_timestamp` of whole seconds: eight blanks for a non-positive input,
      otherwise `hh:mm:ss` with unbounded hours. */
  function FormatTimestamp(seconds: int): string
  {
    if seconds <= 0 then Repeat(' ', 8) else Helpers.Clock(seconds)
  }

  /** A positive time reads back as itself; a non-positive one leaves an aligned blank. */
  lemma FormatTimestampRoundTrip(n: int)
    ensures n <= 0 ==> FormatTimestamp(n) == "        "
    ensures n > 0 ==> Helpers.ParseTimestamp(FormatTimestamp(n)) == Num(n)
  {
    if n > 0 {
      Helpers.FormatIsClock(n);
      Helpers.ParseFormatRoundTrip(n);
    }
  }

  // ---------------------------------------------------------------------
  // Header and content

  /** Index of the first empty line, if there is one. */
  function FirstBlank(lines: seq<string>): (r: Option<nat>)
    ensures r.Some? ==> r.value < |lines| && lines[r.value] == ""
    ensures r.Some? ==> forall j :: 0 <= j < r.value ==> lines[j] != ""
    ensures r.None? ==> forall j :: 0 <= j < |lines| ==> lines[j] != ""
  {
    if lines == [] then None
    else if lines[0] == "" then Some(0)
    else match FirstBlank(lines[1..])
      case None => None
      case Some(i) => Some(i + 1)
  }

  /** `header_end`: one past the first empty line, or 7 when no line is empty. */
  function HeaderEnd(lines: seq<string>): nat
  {
    match FirstBlank(lines)
    case Some(i) => i + 1
    case None => 7
  }

  /** `lines[:header_end]`; Python's slice stops at the end of the list. */
  function HeaderLines(lines: seq<string>): seq<string>
  {
    if HeaderEnd(lines) <= |lines| then lines[..HeaderEnd(lines)] else lines
  }

  /** `lines[header_end:]`. */
  function ContentLines(lines: seq<string>): seq<string>
  {
    if HeaderEnd(lines) <= |lines| then lines[HeaderEnd(lines)..] else []
  }

  /** The header ends with the first empty line, every earlier line is non-empty, and
      header and content together are the whole transcript; without an empty line the
      header is the first seven lines. */
  lemma HeaderThenContent(lines: seq<string>)
    ensures HeaderLines(lines) + ContentLines(lines) == lines
    ensures FirstBlank(lines).Some? ==>
      HeaderLines(lines) != [] && HeaderLines(lines)[|HeaderLines(lines)| - 1] == ""
      && forall j :: 0 <= j < |HeaderLines(lines)| - 1 ==> HeaderLines(lines)[j] != ""
    ensures FirstBlank(lines).None? ==> |HeaderLines(lines)| == if |lines| < 7 then |lines| else 7
  {
    if HeaderEnd(lines) <= |lines| {
      assert lines[..HeaderEnd(lines)] + lines[HeaderEnd(lines)..] == lines;
    }
  }

  // ---------------------------------------------------------------------
  // Overlapping windows

  const BlockSize: nat := 20
  /** `block_size - block_size // 2`. */
  const Stride: nat := 10

  function Min(a: int, b: int): int { if a <= b then a else b }

  /** `content[i : i + 20]`. */
  function BlockAt(content: seq<string>, i: nat): seq<string>
    requires i <= |content|
  {
    content[i..Min(i + BlockSize, |content|)]
  }

  /** The windows starting at `i`, `i + 10`, ... below the length of the content. */
  function Windows(content: seq<string>, i: nat): seq<seq<string>>
    decreases |content| - i
  {
    if i >= |content| then [] else [BlockAt(content, i)] + Windows(content, i + Stride)
  }

  /** The blocks of `summarize_transcription_llama`: the loop over
      `range(0, len(content), 10)` keeping each non-empty slice. */
  method SplitBlocks(content: seq<string>) returns (blocks: seq<seq<string>>)
    ensures blocks == Windows(content, 0)
  {
    blocks := [];
    var i := 0;
    while i < |content|
      invariant blocks + Windows(content, i) == Windows(content, 0)
      decreases |content| - i
    {
      var block := BlockAt(content, i);
      if block != [] {
        blocks := blocks + [block];
      }
      i := i + Stride;
    }
  }

  /** There are ceil(n / 10) windows; window k holds lines 10k up to 10k + 20, clipped,
      and is never empty. */
  lemma {:induction false} WindowsShape(content: seq<string>, i: nat)
    requires i <= |content|
    ensures |Windows(content, i)| == (|content| - i + Stride - 1) / Stride
    ensures forall k :: 0 <= k < |Windows(content, i)| ==>
      i + Stride * k < |content| && Windows(content, i)[k] == BlockAt(content, i + Stride * k)
    decreases |content| - i
  {
    if i < |content| {
      if i + Stride <= |content| {
        WindowsShape(content, i + Stride);
      } else {
        assert Windows(content, i + Stride) == [];
      }
      var w := Windows(content, i);
      forall k | 0 <= k < |w|
        ensures i + Stride * k < |content| && w[k] == BlockAt(content, i + Stride * k)
      {
        if k > 0 {
          assert w[k] == Windows(content, i + Stride)[k - 1];
        }
      }
    }
  }

  /** The windows of the content, read off directly. */
  lemma BlocksOfContent(content: seq<string>, k: nat)
    requires k < |Windows(content, 0)|
    ensures Stride * k < |content|
    ensures Windows(content, 0)[k] == content[Stride * k..Min(Stride * k + BlockSize, |content|)]
    ensures Windows(content, 0)[k] != []
  {
    WindowsShape(content, 0);
  }

  /** Empty content gives no block at all, any other content at least one. */
  lemma NoBlocksIffEmpty(content: seq<string>)
    ensures Windows(content, 0) == [] <==> content == []
  {
  }

  /** Twenty-five content lines give three blocks starting at 0, 10 and 20; the third,
      five lines long, lies inside the second. */
  lemma TwentyFiveLines(content: seq<string>)
    requires |content| == 25
    ensures Windows(content, 0) == [content[..20], content[10..], content[20..]]
    ensures Windows(content, 0)[2] == Windows(content, 0)[1][10..]
  {
    assert Windows(content, 30) == [];
    assert BlockAt(content, 20) == content[20..];
    assert BlockAt(content, 10) == content[10..];
    assert BlockAt(content, 0) == content[..20];
    assert Windows(content, 20) == [content[20..]];
    assert Windows(content, 10) == [content[10..]] + [content[20..]];
    assert content[10..][10..] == content[20..];
  }

  /** Block k covers content line j. */
  predicate Covers(n: nat, k: nat, j: nat)
  {
    Stride * k < n && Stride * k <= j < Min(Stride * k + BlockSize, n)
  }

  /** Every content line lies in the block starting at the last multiple of ten at or
      before it and, from line 10 on, in the block before that one; in no other. */
  lemma CoverageOneOrTwo(n: nat, j: nat)
    requires j < n
    ensures Covers(n, j / Stride, j)
    ensures j >= Stride ==> Covers(n, j / Stride - 1, j)
    ensures forall k: nat :: Covers(n, k, j) ==> k == j / Stride || k + 1 == j / Stride
  {
    forall k: nat | Covers(n, k, j) ensures k == j / Stride || k + 1 == j / Stride {
      CoverIndex(k, j);
    }
  }

  lemma CoverIndex(k: nat, j: nat)
    requires Stride * k <= j < Stride * k + BlockSize
    ensures k == j / Stride || k + 1 == j / Stride
  {
  }

  /** The blocks are those of the windows: the number of blocks covering a line is the
      number of windows, among `Windows(content, 0)`, that hold it. */
  lemma CoversIsWindow(content: seq<string>, k: nat, j: nat)
    requires k < |Windows(content, 0)|
    ensures Covers(|content|, k, j) <==> Stride * k <= j < Stride * k + |Windows(content, 0)[k]|
  {
    BlocksOfContent(content, k);
  }

  // ---------------------------------------------------------------------
  // Source text of a block

  /** `re.sub(r'\[\d{2}:\d{2}:\d{2}\] ', '', s)`: every token found scanning left to
      right is deleted. */
  function RemoveStamps(s: string): (r: string)
    ensures |r| <= |s|
    decreases |s|
  {
    if s == [] then []
    else if StampTokenAt(s, 0) then RemoveStamps(s[11..])
    else [s[0]] + RemoveStamps(s[1..])
  }

  /** The texts of the lines that begin with a stamp token, tokens removed, in order. */
  function StampedTexts(block: seq<string>): seq<string>
  {
    if block == [] then [] else StampedTexts(block[..|block| - 1]) + StampedText(block[|block| - 1])
  }

  function StampedText(line: string): seq<string>
  {
    if StampTokenAt(line, 0) then [RemoveStamps(line)] else []
  }

  /** The text handed to the model for one block: the stamped lines only, joined by
      single spaces. */
  function BlockText(block: seq<string>): string
  {
    Join(StampedTexts(block), " ")
  }

  /** Text without `[` is left as it is. */
  lemma {:induction false} RemoveStampsPlain(s: string)
    requires '[' !in s
    ensures RemoveStamps(s) == s
    decreases |s|
  {
    if s != [] {
      assert s[0] in s;
      RemoveStampsPlain(s[1..]);
    }
  }

  /** A stamped line whose text has no `[` contributes exactly that text. */
  lemma StampedLineText(stamp: string, text: string)
    requires StampTokenAt(stamp, 0) && |stamp| == 11 && '[' !in text
    ensures RemoveStamps(stamp + text) == text
  {
    assert StampTokenAt(stamp + text, 0);
    assert (stamp + text)[11..] == text;
    RemoveStampsPlain(text);
  }

  /** A continuation line, indented by twelve blanks, adds nothing to the text. */
  lemma ContinuationExcluded(block: seq<string>, text: string)
    ensures BlockText(block + [Repeat(' ', 12) + text]) == BlockText(block)
  {
    var line := Repeat(' ', 12) + text;
    var b := block + [line];
    assert line[0] == ' ';
    assert StampedText(line) == [];
    assert b[..|b| - 1] == block && b[|b| - 1] == line;
    assert StampedTexts(b) == StampedTexts(block) + [];
    assert StampedTexts(b) == StampedTexts(block);
    assert BlockText(b) == BlockText(block);
  }

  /** A block without stamped lines gives the model an empty text. */
  lemma {:induction false} NoStampNoText(block: seq<string>)
    requires forall k :: 0 <= k < |block| ==> !StampTokenAt(block[k], 0)
    ensures BlockText(block) == ""
  {
    if block != [] {
      NoStampNoText(block[..|block| - 1]);
    }
  }

  // ---------------------------------------------------------------------
  // Cleaning a block summary

  /** Step one: the stripped text before the first period, with a period appended
      (`summary_raw.split('.')[0].strip() + '.'`); the whole stripped text and a period
      when there is none. */
  function FirstSentence(raw: string): string
  {
    match IndexOf(raw, ".")
    case Some(i) => Strip(raw[..i]) + "."
    case None => Strip(raw) + "."
  }

  /** The first sentence ends with its only period. */
  lemma FirstSentenceShape(raw: string)
    ensures var r := FirstSentence(raw);
      r != [] && r[|r| - 1] == '.' && '.' !in r[..|r| - 1]
  {
    var t := match IndexOf(raw, ".") case Some(i) => raw[..i] case None => raw;
    assert '.' !in t by {
      if '.' in t {
        var k :| 0 <= k < |t| && t[k] == '.';
        assert OccursAt(raw, ".", k);
      }
    }
    StripNoChar(t, '.');
    assert (Strip(t) + ".")[..|Strip(t)|] == Strip(t);
  }

  lemma StripNoChar(t: string, c: char)
    requires c !in t
    ensures c !in Strip(t)
  {
  }

  /** Lower-cased words the summary is cut at. */
  const CutWords: seq<string> := ["assistant", "here is", "g\U{00F6}ttliche,", "system"]

  /** One of the alternatives of `(assistant|here is|\*.*?\*|göttliche,|system)` matches
      at `p` of the lower-cased text `t` (`\*.*?\*` needs a second star later on). */
  predicate MarkerAt(t: string, p: nat)
  {
    OccursAt(t, CutWords[0], p) || OccursAt(t, CutWords[1], p) || OccursAt(t, CutWords[2], p)
    || OccursAt(t, CutWords[3], p) || (p < |t| && t[p] == '*' && '*' in t[p + 1..])
  }

  /** The cleanup pattern `\.?(...).*` matches at `p`: the optional period is taken
      when a marker follows it, and left out otherwise. */
  predicate CutAt(s: string, p: nat)
  {
    (p < |s| && s[p] == '.' && MarkerAt(Lower(s), p + 1)) || MarkerAt(Lower(s), p)
  }

  /** The leftmost match at or after `from`. */
  function FirstCut(s: string, from: nat): (r: Option<nat>)
    requires from <= |s|
    ensures r.Some? ==> from <= r.value <= |s| && CutAt(s, r.value)
    ensures r.Some? ==> forall q :: from <= q < r.value ==> !CutAt(s, q)
    ensures r.None? ==> forall q :: from <= q <= |s| ==> !CutAt(s, q)
    decreases |s| - from
  {
    if CutAt(s, from) then Some(from)
    else if from == |s| then None
    else FirstCut(s, from + 1)
  }

  /** Step two: everything from the first match on is deleted (the trailing `.*`
      reaches the end of the text), then the rest is stripped. */
  function CutMarkers(s: string): string
  {
    Strip(CutPrefix(s))
  }

  /** `re.sub(r'\s+', ' ', s)`: every run of white space becomes one blank. */
  function Collapse(s: string): (r: string)
    ensures |r| <= |s|
    decreases |s|
  {
    if s == [] then []
    else if White(PySpace, s[0]) then " " + Collapse(TrimStart(s[1..], PySpace))
    else [s[0]] + Collapse(s[1..])
  }

  /** Step three: runs collapsed, then stripped. */
  function Squeeze(s: string): string { Strip(Collapse(s)) }

  /** The three steps in order. */
  function Cleanup(raw: string): string
  {
    Squeeze(CutMarkers(FirstSentence(raw)))
  }

  /** `Strip` keeps a contiguous part of its input. */
  lemma StripIsSlice(x: string) returns (a: nat)
    ensures a + |Strip(x)| <= |x| && Strip(x) == x[a..a + |Strip(x)|]
  {
    var ts := TrimStart(x, PySpace);
    a := |x| - |ts|;
    assert Strip(x) == ts[..|Strip(x)|];
  }

  lemma {:induction false} LowerSlice(s: string, a: nat, b: nat)
    requires a <= b <= |s|
    ensures Lower(s[a..b]) == Lower(s)[a..b]
    decreases a
  {
    if a == 0 {
      LowerTake(s, b);
      assert s[a..b] == s[..b];
    } else {
      LowerSlice(s[1..], a - 1, b - 1);
      assert s[1..][a - 1..b - 1] == s[a..b];
      assert Lower(s) == [LowerChar(s[0])] + Lower(s[1..]);
    }
  }

  lemma {:induction false} LowerTake(s: string, b: nat)
    requires b <= |s|
    ensures Lower(s[..b]) == Lower(s)[..b]
    decreases b
  {
    if b > 0 {
      LowerTake(s[1..], b - 1);
      assert s[..b][1..] == s[1..][..b - 1];
      assert Lower(s) == [LowerChar(s[0])] + Lower(s[1..]);
    }
  }

  lemma OccursSlice(t: string, a: nat, b: nat, w: string, q: nat)
    requires a <= b <= |t| && OccursAt(t[a..b], w, q)
    ensures OccursAt(t, w, a + q) && q + |w| <= b - a
  {
    var u := t[a..b];
    forall i | 0 <= i < |w| ensures t[a + q + i] == w[i] {
      assert u[q..q + |w|][i] == w[i];
      assert u[q + i] == t[a + q + i];
    }
    assert t[a + q..a + q + |w|] == w;
  }

  lemma StarSlice(t: string, a: nat, b: nat, q: nat)
    requires a <= b <= |t| && q < b - a && t[a..b][q] == '*' && '*' in t[a..b][q + 1..]
    ensures t[a + q] == '*' && '*' in t[a + q + 1..]
  {
    var k :| 0 <= k < |t[a..b][q + 1..]| && t[a..b][q + 1..][k] == '*';
    assert t[a + q + 1..][k] == '*';
  }

  /** A marker inside a slice is a marker of the whole text. */
  lemma MarkerSlice(t: string, a: nat, b: nat, q: nat)
    requires a <= b <= |t| && MarkerAt(t[a..b], q)
    ensures MarkerAt(t, a + q) && q < b - a
  {
    var u := t[a..b];
    if OccursAt(u, CutWords[0], q) {
      OccursSlice(t, a, b, CutWords[0], q);
    } else if OccursAt(u, CutWords[1], q) {
      OccursSlice(t, a, b, CutWords[1], q);
    } else if OccursAt(u, CutWords[2], q) {
      OccursSlice(t, a, b, CutWords[2], q);
    } else if OccursAt(u, CutWords[3], q) {
      OccursSlice(t, a, b, CutWords[3], q);
    } else {
      StarSlice(t, a, b, q);
    }
  }

  /** The text kept by step two before it is stripped. */
  function CutPrefix(s: string): (r: string)
    ensures |r| <= |s| && r == s[..|r|]
    ensures forall j :: 0 <= j < |r| ==> !CutAt(s, j)
  {
    match FirstCut(s, 0)
    case Some(p) => s[..p]
    case None => s
  }

  /** No text before the first match holds a marker. */
  lemma PrefixClean(s: string, q: nat)
    ensures !MarkerAt(Lower(CutPrefix(s)), q)
  {
    var x := CutPrefix(s);
    LowerSlice(s, 0, |x|);
    if MarkerAt(Lower(x), q) {
      MarkerSlice(Lower(s), 0, |x|, q);
      assert CutAt(s, q);
    }
  }

  /** Stripping a text without markers leaves none. */
  lemma StripClean(x: string, q: nat)
    requires forall j: nat :: !MarkerAt(Lower(x), j)
    ensures !MarkerAt(Lower(Strip(x)), q)
  {
    var a := StripIsSlice(x);
    var r := Strip(x);
    LowerSlice(x, a, a + |r|);
    if MarkerAt(Lower(r), q) {
      MarkerSlice(Lower(x), a, a + |r|, q);
    }
  }

  /** After step two no marker is left: the cut is at the leftmost match. */
  lemma CutMarkersClean(s: string, q: nat)
    ensures !MarkerAt(Lower(CutMarkers(s)), q)
  {
    forall j: nat ensures !MarkerAt(Lower(CutPrefix(s)), j) {
      PrefixClean(s, j);
    }
    assert CutMarkers(s) == Strip(CutPrefix(s));
    StripClean(CutPrefix(s), q);
  }

  // ---------------------------------------------------------------------
  // Step three: white space

  /** Every white character is a blank, and no two white characters are adjacent. */
  predicate SingleSpaced(r: string)
  {
    forall i :: 0 <= i < |r| && White(PySpace, r[i]) ==>
      r[i] == ' ' && (i + 1 < |r| ==> !White(PySpace, r[i + 1]))
  }

  /** The non-white characters of a text, in order. */
  function Words(s: string): string
  {
    if s == [] then []
    else if White(PySpace, s[0]) then Words(s[1..])
    else [s[0]] + Words(s[1..])
  }

  /** A collapsed text starts with white space exactly when its input does. */
  lemma CollapseHead(s: string)
    requires s != []
    ensures Collapse(s) != [] && (White(PySpace, Collapse(s)[0]) <==> White(PySpace, s[0]))
  {
  }

  /** Collapsing leaves single blanks between words. */
  lemma {:induction false} CollapseSingle(s: string)
    ensures SingleSpaced(Collapse(s))
    decreases |s|
  {
    if s == [] {
    } else if White(PySpace, s[0]) {
      var t := TrimStart(s[1..], PySpace);
      TrimStartSpec(s[1..], PySpace);
      CollapseSingle(t);
      if t != [] { CollapseHead(t); }
      BlankThenSpaced(Collapse(t));
    } else {
      CollapseSingle(s[1..]);
      WordThenSpaced(s[0], Collapse(s[1..]));
    }
  }

  lemma BlankThenSpaced(c: string)
    requires SingleSpaced(c) && (c == [] || !White(PySpace, c[0]))
    ensures SingleSpaced(" " + c)
  {
    var r := " " + c;
    forall i | 0 <= i < |r| && White(PySpace, r[i])
      ensures r[i] == ' ' && (i + 1 < |r| ==> !White(PySpace, r[i + 1]))
    {
      if i > 0 { assert r[i] == c[i - 1]; }
      if i + 1 < |r| { assert r[i + 1] == c[i]; }
    }
  }

  lemma WordThenSpaced(x: char, c: string)
    requires SingleSpaced(c) && !White(PySpace, x)
    ensures SingleSpaced([x] + c)
  {
    var r := [x] + c;
    forall i | 0 <= i < |r| && White(PySpace, r[i])
      ensures r[i] == ' ' && (i + 1 < |r| ==> !White(PySpace, r[i + 1]))
    {
      assert i > 0 && r[i] == c[i - 1];
      if i + 1 < |r| { assert r[i + 1] == c[i]; }
    }
  }

  lemma {:induction false} WordsTrimStart(s: string)
    ensures Words(TrimStart(s, PySpace)) == Words(s)
    decreases |s|
  {
    if s != [] && White(PySpace, s[0]) {
      WordsTrimStart(s[1..]);
    }
  }

  /** Collapsing keeps every non-white character, in order. */
  lemma {:induction false} CollapseKeepsWords(s: string)
    ensures Words(Collapse(s)) == Words(s)
    decreases |s|
  {
    if s == [] {
    } else if White(PySpace, s[0]) {
      var t := TrimStart(s[1..], PySpace);
      CollapseKeepsWords(t);
      WordsTrimStart(s[1..]);
      assert (" " + Collapse(t))[1..] == Collapse(t);
    } else {
      CollapseKeepsWords(s[1..]);
      assert ([s[0]] + Collapse(s[1..]))[1..] == Collapse(s[1..]);
    }
  }

  lemma SingleSpacedSlice(r: string, a: nat, b: nat)
    requires a <= b <= |r| && SingleSpaced(r)
    ensures SingleSpaced(r[a..b])
  {
    var u := r[a..b];
    forall i | 0 <= i < |u| && White(PySpace, u[i])
      ensures u[i] == ' ' && (i + 1 < |u| ==> !White(PySpace, u[i + 1]))
    {
      assert u[i] == r[a + i];
      if i + 1 < |u| { assert u[i + 1] == r[a + i + 1]; }
    }
  }

  lemma SpacedNoBreak(r: string)
    requires SingleSpaced(r)
    ensures '\n' !in r
  {
    if '\n' in r {
      var k :| 0 <= k < |r| && r[k] == '\n';
      assert White(PySpace, r[k]);
    }
  }

  /** A stripped text has no white space at either end. */
  lemma StripEnds(x: string)
    ensures var r := Strip(x);
      r != [] ==> !White(PySpace, r[0]) && !White(PySpace, r[|r| - 1])
  {
    var ts := TrimStart(x, PySpace);
    TrimStartSpec(x, PySpace);
    TrimEndSpec(ts, PySpace);
    var r := Strip(x);
    if r != [] {
      assert r[0] == ts[0];
    }
  }

  /** After step three the text is single-spaced, has no white space at either end and
      no line break. */
  lemma SqueezeShape(s: string)
    ensures SingleSpaced(Squeeze(s)) && '\n' !in Squeeze(s)
    ensures var r := Squeeze(s);
      r != [] ==> !White(PySpace, r[0]) && !White(PySpace, r[|r| - 1])
  {
    SqueezeSpaced(s);
    SpacedNoBreak(Squeeze(s));
    StripEnds(Collapse(s));
  }

  lemma SqueezeSpaced(s: string)
    ensures SingleSpaced(Squeeze(s))
  {
    var c := Collapse(s);
    CollapseSingle(s);
    var a := StripIsSlice(c);
    SingleSpacedSlice(c, a, a + |Strip(c)|);
  }

  /** Step one always ends the text with a period, yet step two can take everything
      away again: a first sentence that opens with a marker leaves an empty summary. */
  lemma CleanupEmptyAtMarker(raw: string)
    requires MarkerAt(Lower(FirstSentence(raw)), 0)
    ensures Cleanup(raw) == ""
  {
    var f := FirstSentence(raw);
    assert CutAt(f, 0);
    assert CutPrefix(f) == [];
  }

  // ---------------------------------------------------------------------
  // Prompts and the language model

  /** The three sentences both system prompts open with. */
  function PromptPreamble(): string
  {
    "Du bist ein pr\U{00E4}ziser Zusammenfasser. Antworte NUR mit EINEM kurzen Satz auf Deutsch. "
    + "Kein Reasoning, keine Einleitung, kein Nachsatz, nichts anderes. Ende mit einem Punkt. "
    + "KEIN Englisch, KEINE Sternchen, KEINE W\U{00F6}rter wie assistant oder here is. "
  }

  /** The rest of the group prompt. */
  function NewsletterRest(): string
  {
    "Es geht bei dem Text generell um spirituelle Botschaften an mehrere Menschen zu Weltgeschehen."
    + "Verwende NIEMALS die 'Du'-Form, sondern stattdessen IMMER die 'Ihr'-Form."
    + "Erkenne den Kontext der Botschaft an die Gruppe. Bleibe nah am Inhalt ohne Abhebung."
  }

  /** The rest of the personal prompt. */
  function DurchgabeRest(): string
  {
    "Verwende die 'Du'-Form wo passend f\U{00FC}r pers\U{00F6}nliche Referenzen auf 'Seele der Liebe', "
    + "aber variiere die Satzstruktur f\U{00FC}r nat\U{00FC}rliche Zusammenfassungen. "
    + "Der Text ist eine spirituelle Beratung eines Engels an einen Menschen ('Du' als Adressat). "
    + "Erkenne den Kontext der Botschaft an den Menschen. "
    + "Fasse den Rat des Engels pr\U{00E4}zise zusammen, bleibe nah am Inhalt ohne Abhebung."
  }

  /** The two system prompts. */
  datatype SystemPrompt = Newsletter | Durchgabe

  /** The text of a system prompt. */
  function PromptText(p: SystemPrompt): string
  {
    PromptPreamble() + (if p == Newsletter then NewsletterRest() else DurchgabeRest())
  }

  /** The system prompt: the group prompt exactly for "newsletter", the personal one
      for every other prompt type. */
  function SystemContent(promptType: string): (r: SystemPrompt)
    ensures r == Newsletter <==> promptType == "newsletter"
  {
    if promptType == "newsletter" then Newsletter else Durchgabe
  }

  /** The prompt type of `main`: `-newsletter`, or "newsletter" anywhere in the
      lower-cased file name, selects the group prompt; `-durchgabe` is accepted but
      changes nothing. The two flags exclude each other on the command line. */
  function PromptType(durchgabeFlag: bool, newsletterFlag: bool, inputPath: string): (r: string)
    requires !(durchgabeFlag && newsletterFlag)
    ensures r == "newsletter" <==>
      newsletterFlag || Contains(Lower(PosixBasename(inputPath)), "newsletter")
    ensures r == "newsletter" || r == "durchgabe"
  {
    if newsletterFlag then "newsletter"
    else if Contains(Lower(PosixBasename(inputPath)), "newsletter") then "newsletter"
    else "durchgabe"
  }

  /** `-durchgabe` cannot override a file name that mentions the newsletter. */
  lemma DurchgabeFlagIgnored(inputPath: string)
    ensures PromptType(true, false, inputPath) == PromptType(false, false, inputPath)
    ensures Contains(Lower(PosixBasename(inputPath)), "newsletter") ==>
      PromptType(true, false, inputPath) == "newsletter"
  {
  }

  /** The chat template turns the system message `PromptText(p)` and a user message
      into the prompt text; the generator continues a prompt. Both are given, not
      modelled. */
  type Template = (SystemPrompt, string) -> string
  type Generator = string -> string

  /** The user message of a block. */
  function UserContent(text: string): string { "Zusammenfassen in einem Satz: " + text }

  /** The decoded output, stripped, with an echoed prompt removed and stripped again. */
  function Unprompted(prompt: string, output: string): (r: string)
    ensures var o := Strip(output);
      StartsWith(o, prompt) ==> r == Strip(o[|prompt|..])
    ensures !StartsWith(Strip(output), prompt) ==> r == Strip(output)
  {
    var o := Strip(output);
    if StartsWith(o, prompt) then Strip(o[|prompt|..]) else o
  }

  /** The cleaned one-sentence summary of a block. */
  function BlockSummaryOf(block: seq<string>, system: SystemPrompt, template: Template,
                          generate: Generator): string
  {
    var prompt := template(system, UserContent(BlockText(block)));
    Cleanup(Unprompted(prompt, generate(prompt)))
  }

  /** The per-block summariser of one run. */
  function Summarizer(system: SystemPrompt, template: Template, generate: Generator)
    : seq<string> -> string
  {
    block => BlockSummaryOf(block, system, template, generate)
  }

  /** The summaries of the blocks, in order. */
  function Summaries(blocks: seq<seq<string>>, summarize: seq<string> -> string): (r: seq<string>)
    ensures |r| == |blocks|
  {
    if blocks == [] then []
    else Summaries(blocks[..|blocks| - 1], summarize) + [summarize(blocks[|blocks| - 1])]
  }

  lemma {:induction false} SummariesAt(blocks: seq<seq<string>>, summarize: seq<string> -> string,
                                       k: nat)
    requires k < |blocks|
    ensures Summaries(blocks, summarize)[k] == summarize(blocks[k])
    decreases |blocks|
  {
    if k < |blocks| - 1 {
      SummariesAt(blocks[..|blocks| - 1], summarize, k);
    }
  }

  // ---------------------------------------------------------------------
  // Assembly

  /** A rule of forty double lines. */
  function Rule(): string { Repeat('\U{2550}', 40) }

  /** The heading line of a section: ten dashes, two blanks and the summary. */
  function Heading(summary: string): string { "----------  " + summary }

  /** One section of the enhanced body: a line break, the heading, then the block's
      lines, each ended by a line break. */
  function Section(summary: string, block: seq<string>): string
  {
    "\n" + Heading(summary) + "\n" + Join(block, "\n") + "\n"
  }

  /** The enhanced body: the sections of all blocks, in order. */
  function Body(summaries: seq<string>, blocks: seq<seq<string>>): string
    requires |summaries| == |blocks|
  {
    if blocks == [] then ""
    else
      Body(summaries[..|blocks| - 1], blocks[..|blocks| - 1])
      + Section(summaries[|blocks| - 1], blocks[|blocks| - 1])
  }

  /** Clock readings, the elapsed whole seconds and the formatted ratio of one run;
      the clocks and the floating-point ratio are taken as given. */
  datatype RunInfo = RunInfo(start: string, end: string, seconds: int, ratio: string)

  /** The metadata block between the transcript header and the digest: its lines, each
      ended by a line break, after one more line break. */
  function SummaryHeader(info: RunInfo, promptType: string): string
  {
    "\n" + Join(MetaLines(info, promptType), "\n") + "\n"
  }

  /** The metadata lines: a titled rule, start and end clock readings, the elapsed time,
      the ratio, the model name and the prompt type, a blank line and the digest title. */
  function MetaLines(info: RunInfo, promptType: string): seq<string>
  {
    [Rule(), "Zusammenfassung des Transkripts", Rule(),
     "Start:   " + info.start, "Ende:    " + info.end,
     "Dauer:   " + FormatTimestamp(info.seconds),
     "Ratio:   " + info.ratio + " % (Transkriptionsdauer / MP3-Dauer)",
     "Modell:  Llama-3.1-8B-CT2_int8_float16", "Typ:     " + promptType, "",
     "Gesamtzusammenfassung:"]
  }

  /** The finished document: banner and transcript header, metadata, the digest of all
      summaries, a blank line and the enhanced body. */
  function Document(lines: seq<string>, summaries: seq<string>, blocks: seq<seq<string>>,
                    info: RunInfo, promptType: string): string
    requires |summaries| == |blocks|
  {
    Rule() + "\nMP3-Transkription\n" + Rule() + "\n" + Join(HeaderLines(lines), "\n")
    + SummaryHeader(info, promptType) + Join(summaries, "\n") + "\n\n" + Body(summaries, blocks)
  }

  /** `summarize_transcription_llama`: split the transcript, summarise every window in
      order while building the enhanced body, then assemble the document. */
  method SummarizeTranscription(transcript: string, promptType: string, info: RunInfo,
                                template: Template, generate: Generator)
    returns (doc: string)
    ensures var lines := Split(transcript, '\n');
      var blocks := Windows(ContentLines(lines), 0);
      var summaries := Summaries(blocks, Summarizer(SystemContent(promptType), template, generate));
      doc == Document(lines, summaries, blocks, info, promptType)
  {
    var lines := Split(transcript, '\n');
    var blocks := SplitBlocks(ContentLines(lines));
    var summaries, enhanced := SummarizeBlocks(blocks, Summarizer(SystemContent(promptType), template, generate));
    doc := Rule() + "\nMP3-Transkription\n" + Rule() + "\n" + Join(HeaderLines(lines), "\n")
      + SummaryHeader(info, promptType) + Join(summaries, "\n") + "\n\n" + enhanced;
  }

  /** The loop over the blocks: one model call per block, in order. */
  method SummarizeBlocks(blocks: seq<seq<string>>, summarize: seq<string> -> string)
    returns (summaries: seq<string>, enhanced: string)
    ensures summaries == Summaries(blocks, summarize)
    ensures enhanced == Body(summaries, blocks)
  {
    summaries := [];
    enhanced := "";
    for k := 0 to |blocks|
      invariant summaries == Summaries(blocks[..k], summarize)
      invariant enhanced == Body(summaries, blocks[..k])
    {
      var summary := summarize(blocks[k]);
      assert blocks[..k + 1][..k] == blocks[..k];
      BodyStep(summaries, blocks[..k], summary, blocks[k]);
      assert blocks[..k] + [blocks[k]] == blocks[..k + 1];
      summaries := summaries + [summary];
      enhanced := enhanced + Section(summary, blocks[k]);
    }
    assert blocks[..|blocks|] == blocks;
  }

  lemma BodyStep(summaries: seq<string>, blocks: seq<seq<string>>, summary: string,
                 block: seq<string>)
    requires |summaries| == |blocks|
    ensures Body(summaries + [summary], blocks + [block])
      == Body(summaries, blocks) + Section(summary, block)
  {
    assert (summaries + [summary])[..|blocks|] == summaries;
    assert (blocks + [block])[..|blocks|] == blocks;
  }

  // ---------------------------------------------------------------------
  // The document read back line by line

  /** The lines of the enhanced body: per block its heading, its lines and a blank. */
  function SectionLines(summaries: seq<string>, blocks: seq<seq<string>>): seq<string>
    requires |summaries| == |blocks|
  {
    if blocks == [] then []
    else
      SectionLines(summaries[..|blocks| - 1], blocks[..|blocks| - 1])
      + LinesOfSection(summaries[|blocks| - 1], blocks[|blocks| - 1])
  }

  function LinesOfSection(summary: string, block: seq<string>): seq<string>
  {
    [Heading(summary)] + block + [""]
  }

  /** The lines of the finished document: the banner, the transcript header, the
      metadata, one line per summary (a single empty line when there is none), two
      empty lines, then the sections. */
  function DocumentLines(lines: seq<string>, summaries: seq<string>, blocks: seq<seq<string>>,
                         info: RunInfo, promptType: string): seq<string>
    requires |summaries| == |blocks|
  {
    [Rule(), "MP3-Transkription", Rule()] + HeaderLines(lines) + MetaLines(info, promptType)
    + (if summaries == [] then [""] else summaries) + ["", ""] + SectionLines(summaries, blocks)
  }

  lemma JoinThree(a: string, b: string, c: string)
    ensures Join([a, b, c], "\n") == a + "\n" + b + "\n" + c
  {
    assert [a, b, c][..2] == [a, b];
    assert [a, b][..1] == [a];
    assert Join([a], "\n") == a;
    assert Join([a, b], "\n") == a + "\n" + b;
  }

  lemma JoinCons(x: string, rest: seq<string>)
    requires rest != []
    ensures Join([x] + rest, "\n") == x + "\n" + Join(rest, "\n")
  {
    JoinAppend([x], rest, "\n");
  }

  /** Appending the lines of the sections appends the enhanced body. */
  lemma {:induction false} SectionsJoin(x: seq<string>, summaries: seq<string>,
                                        blocks: seq<seq<string>>)
    requires x != [] && |summaries| == |blocks|
    requires forall k :: 0 <= k < |blocks| ==> blocks[k] != []
    ensures Join(x + SectionLines(summaries, blocks), "\n") == Join(x, "\n") + Body(summaries, blocks)
    decreases |blocks|
  {
    if blocks != [] {
      var n := |blocks| - 1;
      var s0, b0 := summaries[..n], blocks[..n];
      var rest := SectionLines(s0, b0);
      var last := LinesOfSection(summaries[n], blocks[n]);
      SectionsJoin(x, s0, b0);
      SectionJoin(x + rest, summaries[n], blocks[n]);
      JoinStep(x, rest, last, Body(s0, b0), Section(summaries[n], blocks[n]));
    } else {
      assert x + SectionLines(summaries, blocks) == x;
    }
  }

  lemma JoinStep(x: seq<string>, rest: seq<string>, last: seq<string>, body: string, sec: string)
    requires Join(x + rest, "\n") == Join(x, "\n") + body
    requires Join(x + rest + last, "\n") == Join(x + rest, "\n") + sec
    ensures Join(x + (rest + last), "\n") == Join(x, "\n") + (body + sec)
  {
    AppendAssoc(x, rest, last);
    AppendAssoc(Join(x, "\n"), body, sec);
  }

  /** One section's lines appended to non-empty lines append the section's text. */
  lemma SectionJoin(front: seq<string>, summary: string, block: seq<string>)
    requires front != [] && block != []
    ensures Join(front + LinesOfSection(summary, block), "\n")
      == Join(front, "\n") + Section(summary, block)
  {
    var head := Heading(summary);
    var nl := "\n";
    var jf, jb := Join(front, nl), Join(block, nl);
    JoinAppend(block, [""], nl);
    JoinCons(head, block + [""]);
    assert [head] + (block + [""]) == LinesOfSection(summary, block);
    JoinAppend(front, LinesOfSection(summary, block), nl);
    SectionRegroup(jf, head, jb);
  }

  lemma SectionRegroup(jf: string, head: string, jb: string)
    ensures jf + "\n" + (head + "\n" + (jb + "\n" + "")) == jf + ("\n" + head + "\n" + jb + "\n")
  {
  }

  /** The document is its lines joined by line breaks. */
  lemma DocumentJoin(lines: seq<string>, summaries: seq<string>, blocks: seq<seq<string>>,
                     info: RunInfo, promptType: string)
    requires |summaries| == |blocks| && HeaderLines(lines) != []
    requires forall k :: 0 <= k < |blocks| ==> blocks[k] != []
    ensures Document(lines, summaries, blocks, info, promptType)
      == Join(DocumentLines(lines, summaries, blocks, info, promptType), "\n")
  {
    var h := HeaderLines(lines);
    var x := [Rule(), "MP3-Transkription", Rule()] + h;
    var d := if summaries == [] then [""] else summaries;
    BannerJoin(h);
    assert Join(d, "\n") == Join(summaries, "\n");
    TailJoin(x, MetaLines(info, promptType), d, summaries, blocks);
  }

  lemma BannerJoin(h: seq<string>)
    requires h != []
    ensures Join([Rule(), "MP3-Transkription", Rule()] + h, "\n")
      == Rule() + "\nMP3-Transkription\n" + Rule() + "\n" + Join(h, "\n")
  {
    var banner := [Rule(), "MP3-Transkription", Rule()];
    JoinThree(Rule(), "MP3-Transkription", Rule());
    JoinAppend(banner, h, "\n");
    BannerRegroup(Rule(), Join(h, "\n"));
  }

  lemma BannerRegroup(r: string, j: string)
    ensures r + "\n" + "MP3-Transkription" + "\n" + r + "\n" + j
      == r + "\nMP3-Transkription\n" + r + "\n" + j
  {
    var m := "MP3-Transkription";
    assert "\n" + m + "\n" == "\nMP3-Transkription\n";
    AppendAssoc(r, "\n", m);
    AppendAssoc(r, "\n" + m, "\n");
  }

  /** Everything after the transcript header, joined. */
  lemma TailJoin(x: seq<string>, m: seq<string>, d: seq<string>, summaries: seq<string>,
                 blocks: seq<seq<string>>)
    requires x != [] && m != [] && d != [] && |summaries| == |blocks|
    requires forall k :: 0 <= k < |blocks| ==> blocks[k] != []
    ensures Join(x + m + d + ["", ""] + SectionLines(summaries, blocks), "\n")
      == Join(x, "\n") + ("\n" + Join(m, "\n") + "\n") + Join(d, "\n") + "\n\n"
         + Body(summaries, blocks)
  {
    var nl := "\n";
    var jx, jm, jd, body := Join(x, nl), Join(m, nl), Join(d, nl), Body(summaries, blocks);
    JoinAppend(x, m, nl);
    JoinAppend(x + m, d, nl);
    JoinAppend(x + m + d, ["", ""], nl);
    assert ["", ""][..1] == [""];
    assert Join(["", ""], nl) == nl;
    SectionsJoin(x + m + d + ["", ""], summaries, blocks);
    Regroup(jx, jm, jd, body);
  }

  lemma Regroup(jx: string, jm: string, jd: string, body: string)
    ensures jx + "\n" + jm + "\n" + jd + "\n" + "\n" + body
      == jx + ("\n" + jm + "\n") + jd + "\n\n" + body
  {
    assert "\n" + "\n" == "\n\n";
  }

  lemma RuleUnbroken()
    ensures '\n' !in Rule()
  {
  }

  lemma FormatTimestampUnbroken(n: int)
    ensures '\n' !in FormatTimestamp(n)
  {
    if n > 0 {
      var h, m, s := PadNat(n / 3600, 2), PadNat(n % 3600 / 60, 2), PadNat(n % 60, 2);
      DigitsUnbroken(h);
      DigitsUnbroken(m);
      DigitsUnbroken(s);
    }
  }

  lemma MetaUnbroken(info: RunInfo, promptType: string)
    requires '\n' !in info.start && '\n' !in info.end && '\n' !in info.ratio
    requires '\n' !in promptType
    ensures Unbroken(MetaLines(info, promptType))
  {
    RuleUnbroken();
    FormatTimestampUnbroken(info.seconds);
    MetaFixedUnbroken();
    var start := "Start:   " + info.start;
    var end := "Ende:    " + info.end;
    var dur := "Dauer:   " + FormatTimestamp(info.seconds);
    var ratio := "Ratio:   " + info.ratio + " % (Transkriptionsdauer / MP3-Dauer)";
    var typ := "Typ:     " + promptType;
    NoBreakJoined("Start:   ", info.start);
    NoBreakJoined("Ende:    ", info.end);
    NoBreakJoined("Dauer:   ", FormatTimestamp(info.seconds));
    NoBreakJoined("Ratio:   ", info.ratio);
    NoBreakJoined("Ratio:   " + info.ratio, " % (Transkriptionsdauer / MP3-Dauer)");
    NoBreakJoined("Typ:     ", promptType);
    UnbrokenEleven(Rule(), "Zusammenfassung des Transkripts", Rule(), start, end, dur, ratio,
                   "Modell:  Llama-3.1-8B-CT2_int8_float16", typ, "", "Gesamtzusammenfassung:");
  }

  lemma UnbrokenEleven(a0: string, a1: string, a2: string, a3: string, a4: string, a5: string,
                       a6: string, a7: string, a8: string, a9: string, a10: string)
    requires '\n' !in a0 && '\n' !in a1 && '\n' !in a2 && '\n' !in a3 && '\n' !in a4
    requires '\n' !in a5 && '\n' !in a6 && '\n' !in a7 && '\n' !in a8 && '\n' !in a9
    requires '\n' !in a10
    ensures Unbroken([a0, a1, a2, a3, a4, a5, a6, a7, a8, a9, a10])
  {
  }

  lemma MetaFixedUnbroken()
    ensures '\n' !in "Zusammenfassung des Transkripts"
    ensures '\n' !in "Modell:  Llama-3.1-8B-CT2_int8_float16"
    ensures '\n' !in " % (Transkriptionsdauer / MP3-Dauer)"
    ensures '\n' !in "Gesamtzusammenfassung:"
  {
    TitleUnbroken();
    ModelUnbroken();
    RatioUnbroken();
    DigestTitleUnbroken();
  }

  lemma TitleUnbroken() ensures '\n' !in "Zusammenfassung des Transkripts" {}
  lemma ModelUnbroken() ensures '\n' !in "Modell:  Llama-3.1-8B-CT2_int8_float16" {}
  lemma RatioUnbroken() ensures '\n' !in " % (Transkriptionsdauer / MP3-Dauer)" {}
  lemma DigestTitleUnbroken() ensures '\n' !in "Gesamtzusammenfassung:" {}

  /** Every summary of a run is a single line. */
  lemma SummariesUnbroken(blocks: seq<seq<string>>, system: SystemPrompt, template: Template,
                          generate: Generator)
    ensures Unbroken(Summaries(blocks, Summarizer(system, template, generate)))
  {
    var f := Summarizer(system, template, generate);
    forall k | 0 <= k < |blocks|
      ensures '\n' !in Summaries(blocks, f)[k]
    {
      SummariesAt(blocks, f, k);
      var b := blocks[k];
      var prompt := template(system, UserContent(BlockText(b)));
      SqueezeShape(CutMarkers(FirstSentence(Unprompted(prompt, generate(prompt)))));
    }
  }

  lemma {:induction false} SectionLinesUnbroken(summaries: seq<string>, blocks: seq<seq<string>>)
    requires |summaries| == |blocks| && Unbroken(summaries)
    requires forall k :: 0 <= k < |blocks| ==> Unbroken(blocks[k])
    ensures Unbroken(SectionLines(summaries, blocks))
    decreases |blocks|
  {
    if blocks != [] {
      var n := |blocks| - 1;
      UnbrokenSlice(summaries, 0, n);
      SectionLinesUnbroken(summaries[..n], blocks[..n]);
      NoBreakJoined("----------  ", summaries[n]);
      UnbrokenAppend([Heading(summaries[n])], blocks[n]);
      UnbrokenAppend([Heading(summaries[n])] + blocks[n], [""]);
      UnbrokenAppend(SectionLines(summaries[..n], blocks[..n]), LinesOfSection(summaries[n], blocks[n]));
    }
  }

  /** Every window consists of transcript lines. */
  lemma WindowsUnbroken(content: seq<string>)
    requires Unbroken(content)
    ensures forall k :: 0 <= k < |Windows(content, 0)| ==>
      Windows(content, 0)[k] != [] && Unbroken(Windows(content, 0)[k])
  {
    WindowsShape(content, 0);
    forall k | 0 <= k < |Windows(content, 0)|
      ensures Windows(content, 0)[k] != [] && Unbroken(Windows(content, 0)[k])
    {
      UnbrokenSlice(content, Stride * k, Min(Stride * k + BlockSize, |content|));
    }
  }

  /** Read back line by line, the finished document is the banner, the transcript header,
      the metadata, the digest with exactly one line per summary, two empty lines and one
      heading, the block's own lines and an empty line per block. */
  lemma DocumentLinesOfRun(transcript: string, promptType: string, info: RunInfo,
                           template: Template, generate: Generator)
    requires '\n' !in info.start && '\n' !in info.end && '\n' !in info.ratio
    requires '\n' !in promptType
    ensures var lines := Split(transcript, '\n');
      var blocks := Windows(ContentLines(lines), 0);
      var summaries := Summaries(blocks, Summarizer(SystemContent(promptType), template, generate));
      Split(Document(lines, summaries, blocks, info, promptType), '\n')
        == DocumentLines(lines, summaries, blocks, info, promptType)
  {
    var lines := Split(transcript, '\n');
    var content := ContentLines(lines);
    var blocks := Windows(content, 0);
    var summaries := Summaries(blocks, Summarizer(SystemContent(promptType), template, generate));
    SplitPiecesFree(transcript, '\n');
    assert Unbroken(lines);
    HeaderThenContent(lines);
    var h := HeaderLines(lines);
    UnbrokenSlice(lines, 0, |h|);
    assert h == lines[..|h|];
    UnbrokenSlice(lines, |h|, |lines|);
    assert content == lines[|h|..];
    WindowsUnbroken(content);
    SummariesUnbroken(blocks, SystemContent(promptType), template, generate);
    DocumentJoin(lines, summaries, blocks, info, promptType);
    DocumentUnbroken(lines, summaries, blocks, info, promptType);
    SplitJoin(DocumentLines(lines, summaries, blocks, info, promptType), '\n');
  }

  lemma DocumentUnbroken(lines: seq<string>, summaries: seq<string>, blocks: seq<seq<string>>,
                         info: RunInfo, promptType: string)
    requires |summaries| == |blocks| && Unbroken(HeaderLines(lines)) && Unbroken(summaries)
    requires forall k :: 0 <= k < |blocks| ==> Unbroken(blocks[k])
    requires '\n' !in info.start && '\n' !in info.end && '\n' !in info.ratio
    requires '\n' !in promptType
    ensures Unbroken(DocumentLines(lines, summaries, blocks, info, promptType))
  {
    var banner := [Rule(), "MP3-Transkription", Rule()];
    BannerUnbroken();
    var h, m := HeaderLines(lines), MetaLines(info, promptType);
    var d := if summaries == [] then [""] else summaries;
    MetaUnbroken(info, promptType);
    SectionLinesUnbroken(summaries, blocks);
    var p1 := banner + h;
    UnbrokenAppend(banner, h);
    var p2 := p1 + m;
    UnbrokenAppend(p1, m);
    var p3 := p2 + d;
    UnbrokenAppend(p2, d);
    var p4 := p3 + ["", ""];
    UnbrokenAppend(p3, ["", ""]);
    UnbrokenAppend(p4, SectionLines(summaries, blocks));
    assert DocumentLines(lines, summaries, blocks, info, promptType) == p4 + SectionLines(summaries, blocks);
  }

  lemma BannerUnbroken()
    ensures Unbroken([Rule(), "MP3-Transkription", Rule()])
  {
    RuleUnbroken();
    BannerTitleUnbroken();
    UnbrokenThree(Rule(), "MP3-Transkription", Rule());
  }

  lemma BannerTitleUnbroken() ensures '\n' !in "MP3-Transkription" {}

  lemma UnbrokenThree(a: string, b: string, c: string)
    requires '\n' !in a && '\n' !in b && '\n' !in c
    ensures Unbroken([a, b, c])
  {
  }

  // ---------------------------------------------------------------------
  // Output file

  /** The summary file of `main`: `os.path.splitext` of the chosen name, then "_s.txt". */
  function OutputName(selected: string): string
  {
    SplitExtRoot(selected) + "_s.txt"
  }

  /** A transcript "stem.txt" is summarised into "stem_s.txt". */
  lemma OutputNameOfText(stem: string)
    requires stem != [] && '.' !in stem && '/' !in stem
    ensures OutputName(stem + ".txt") == stem + "_s.txt"
  {
    var p := stem + ".txt";
    forall k | |stem| < k < |p| ensures p[k] != '.' {
      assert p[k] == ".txt"[k - |stem|];
    }
    LastIndexOfIs(p, |stem|, '.');
    assert '/' !in p by {
      forall k | 0 <= k < |p| ensures p[k] != '/' {
        if k < |stem| { assert p[k] == stem[k]; } else { assert p[k] == ".txt"[k - |stem|]; }
      }
    }
    LastIndexOfAbsent(p, '/');
    assert p[0] == stem[0] && p[0] != '.';
    assert p[..|stem|] == stem;
  }

  /** A name whose only dot opens it keeps its whole name: ".txt" becomes ".txt_s.txt". */
  lemma OutputNameOfDotFile()
    ensures OutputName(".txt") == ".txt_s.txt"
  {
    var p := ".txt";
    LastIndexOfIs(p, 0, '.');
    LastIndexOfAbsent(p, '/');
  }
}
