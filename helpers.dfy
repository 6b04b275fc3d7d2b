// Client utilities: timestamp parsing and formatting, timestamp extraction from
// transcript text, and the file-type checks used before upload.

module Helpers {
  import opened StrUtil

  // ---------------------------------------------------------------------
  // Timestamps

  /** `h:mm:ss` digits of a number of seconds, each field padded to two digits. */
  function Clock(n: nat): string
  {
    PadNat(n / 3600, 2) + ":" + PadNat(n % 3600 / 60, 2) + ":" + PadNat(n % 60, 2)
  }

  /** formatTimestamp: a missing, zero or negative input gives "00:00:00"; hours are
      not bounded and grow beyond two digits. */
  function FormatTimestamp(seconds: Option<int>): (r: string)
    ensures seconds.None? || seconds.value <= 0 ==> r == "00:00:00"
  {
    if seconds.None? || seconds.value <= 0 then "00:00:00" else Clock(seconds.value)
  }

  function RemoveBrackets(s: string): string
  {
    if s == [] then []
    else (if s[0] == '[' || s[0] == ']' then [] else [s[0]]) + RemoveBrackets(s[1..])
  }

  lemma {:induction false} RemoveBracketsSpec(s: string)
    ensures '[' !in RemoveBrackets(s) && ']' !in RemoveBrackets(s)
    ensures '[' !in s && ']' !in s ==> RemoveBrackets(s) == s
  {
    if s != [] {
      RemoveBracketsSpec(s[1..]);
      assert s == [s[0]] + s[1..];
    }
  }

  /** parseTimestamp: brackets are dropped and the ':'-separated parts are read with
      `Number`; three parts are h:m:s, two are m:s, and any other count is 0. */
  function ParseTimestamp(timestamp: string): JsNumber
  {
    if timestamp == [] then Num(0) else ParseParts(Split(RemoveBrackets(timestamp), ':'))
  }

  function ParseParts(parts: seq<string>): JsNumber
  {
    if |parts| == 3 then
      JsAdd(JsAdd(JsScale(ToNumber(parts[0]), 3600), JsScale(ToNumber(parts[1]), 60)), ToNumber(parts[2]))
    else if |parts| == 2 then
      JsAdd(JsScale(ToNumber(parts[0]), 60), ToNumber(parts[1]))
    else Num(0)
  }

  lemma SplitThree(a: string, b: string, c: string)
    requires ':' !in a && ':' !in b && ':' !in c
    ensures Split(a + ":" + b + ":" + c, ':') == [a, b, c]
  {
    assert Join([a], ":") == a;
    assert Join([a, b], ":") == a + ":" + b by {
      assert [a, b][..1] == [a];
    }
    assert Join([a, b, c], ":") == a + ":" + b + ":" + c by {
      assert [a, b, c][..2] == [a, b];
    }
    SplitJoin([a, b, c], ':');
  }

  /** Three fields without brackets or colons are read as the parts of a three-part
      timestamp. */
  lemma ParseThreeParts(a: string, b: string, c: string)
    requires AllDigits(a) && AllDigits(b) && AllDigits(c)
    ensures ParseTimestamp(a + ":" + b + ":" + c) == ParseParts([a, b, c])
  {
    DigitsNoColon(a);
    DigitsNoColon(b);
    DigitsNoColon(c);
    NoBracketsJoined(a, b, c);
    ParseWithoutBrackets(a + ":" + b + ":" + c);
    SplitThree(a, b, c);
  }

  lemma NoBracketsJoined(a: string, b: string, c: string)
    requires '[' !in a && ']' !in a && '[' !in b && ']' !in b && '[' !in c && ']' !in c
    ensures '[' !in a + ":" + b + ":" + c && ']' !in a + ":" + b + ":" + c
  {
  }

  lemma ParseWithoutBrackets(t: string)
    requires t != [] && '[' !in t && ']' !in t
    ensures ParseTimestamp(t) == ParseParts(Split(t, ':'))
  {
    RemoveBracketsSpec(t);
  }

  /** Three parts that read as the numbers `x`, `y` and `z` give `x` hours, `y`
      minutes and `z` seconds. */
  lemma ParseNumberParts(a: string, b: string, c: string, x: int, y: int, z: int)
    requires ToNumber(a) == Num(x) && ToNumber(b) == Num(y) && ToNumber(c) == Num(z)
    ensures ParseParts([a, b, c]) == Num(x * 3600 + y * 60 + z)
  {
    var p := [a, b, c];
    assert p[0] == a && p[1] == b && p[2] == c;
  }

  lemma DigitsNoColon(s: string)
    requires AllDigits(s)
    ensures ':' !in s && '[' !in s && ']' !in s
  {
  }

  /** A zero-padded field reads back as the number it spells. */
  lemma PadNatNumber(n: nat)
    ensures ToNumber(PadNat(n, 2)) == Num(n)
  {
    PadNatValue(n, 2);
    ToNumberOfDigits(PadNat(n, 2));
  }

  lemma ClockArithmetic(n: nat)
    ensures (n / 3600) * 3600 + (n % 3600 / 60) * 60 + n % 60 == n
  {
    var q, r := n / 3600, n % 3600;
    assert n == q * 3600 + r;
    var m, s := r / 60, r % 60;
    assert r == m * 60 + s;
    assert n == (q * 60 + m) * 60 + s;
    assert n % 60 == s;
  }

  lemma ClockFields(n: nat)
    ensures Clock(n) == PadNat(n / 3600, 2) + ":" + PadNat(n % 3600 / 60, 2) + ":" + PadNat(n % 60, 2)
  {
  }

  lemma FormatIsClock(n: nat)
    ensures FormatTimestamp(Some(n)) == Clock(n)
  {
    if n == 0 {
      assert NatToString(0) == "0";
      assert PadNat(0, 2) == "00";
    }
  }

  /** Reading back a formatted time gives the number of seconds for every natural number. */
  lemma ParseFormatRoundTrip(n: nat)
    ensures ParseTimestamp(FormatTimestamp(Some(n))) == Num(n)
  {
    FormatIsClock(n);
    ClockFields(n);
    ParseClockOf(n, n / 3600, n % 3600 / 60, n % 60);
  }

  lemma ParseClockOf(n: nat, q: nat, m: nat, s: nat)
    requires q == n / 3600 && m == n % 3600 / 60 && s == n % 60
    ensures ParseTimestamp(PadNat(q, 2) + ":" + PadNat(m, 2) + ":" + PadNat(s, 2)) == Num(n)
  {
    ParseClockFields(q, m, s);
    ClockArithmetic(n);
  }

  lemma ParseClockFields(q: nat, m: nat, s: nat)
    ensures ParseTimestamp(PadNat(q, 2) + ":" + PadNat(m, 2) + ":" + PadNat(s, 2))
      == Num(q * 3600 + m * 60 + s)
  {
    PadNatNumber(q);
    PadNatNumber(m);
    PadNatNumber(s);
    ParseNumberFields(PadNat(q, 2), PadNat(m, 2), PadNat(s, 2), q, m, s);
  }

  // ---------------------------------------------------------------------
  // extractTimestamps

  datatype Entry = Entry(timestamp: string, seconds: JsNumber, text: string)

  /** `\d{2}:\d{2}:\d{2}` */
  predicate IsStamp(s: string)
  {
    |s| == 8 && IsDigit(s[0]) && IsDigit(s[1]) && s[2] == ':' && IsDigit(s[3])
    && IsDigit(s[4]) && s[5] == ':' && IsDigit(s[6]) && IsDigit(s[7])
  }

  predicate NoLineTerm(s: string) { forall i :: 0 <= i < |s| ==> !JsLineTerm(s[i]) }

  /** The regex tail `\s*(.+)$` can match `r` with the capture starting at `k`. */
  predicate TailSplit(r: string, k: int)
  {
    0 <= k < |r| && AllWhite(r[..k], JsSpace) && NoLineTerm(r[k..])
  }

  /** What `\s*(.+)$` captures from `r`: greedy white space, backing off one character
      when the whole rest is white space. */
  function MatchTail(r: string): Option<string>
  {
    var w := |r| - |TrimStart(r, JsSpace)|;
    if w < |r| then (if NoLineTerm(r[w..]) then Some(r[w..]) else None)
    else if r != [] && !JsLineTerm(r[|r| - 1]) then Some(r[|r| - 1..])
    else None
  }

  /** What MatchTail captures is a split the regex allows. */
  lemma MatchTailSound(r: string)
    ensures MatchTail(r).Some? ==> TailSplit(r, |r| - |MatchTail(r).value|)
  {
    TrimStartSpec(r, JsSpace);
    var w := |r| - |TrimStart(r, JsSpace)|;
    if w == |r| && r != [] {
      assert r[..|r| - 1] == r[..w][..|r| - 1];
    }
  }

  /** Every split the regex allows lies at or before MatchTail's, so MatchTail succeeds
      whenever the regex does and captures as much as the greedy `\s*` leaves. */
  lemma MatchTailMaximal(r: string, k: int)
    requires TailSplit(r, k)
    ensures MatchTail(r).Some? && k <= |r| - |MatchTail(r).value|
  {
    TrimStartSpec(r, JsSpace);
    var w := |r| - |TrimStart(r, JsSpace)|;
    if w < |r| {
      SplitBeforeNonWhite(r, k, w);
    } else {
      assert r[|r| - 1] == r[k..][|r| - 1 - k];
    }
  }

  /** A split cannot pass the first non-white character `r[w]`, and the text from
      there on is then free of line terminators. */
  lemma SplitBeforeNonWhite(r: string, k: int, w: int)
    requires TailSplit(r, k) && 0 <= w < |r| && !White(JsSpace, r[w])
    ensures k <= w && NoLineTerm(r[w..])
  {
    forall i | 0 <= i < |r[w..]| ensures !JsLineTerm(r[w..][i]) {
      assert r[w..][i] == r[k..][i + w - k];
    }
  }

  /** Seconds denoted by a stamp `hh:mm:ss`; `StampSeconds` shows that this is what
      parseTimestamp returns for it. */
  function StampValue(s: string): nat
    requires IsStamp(s)
  {
    TwoDigits(s[..2]) * 3600 + TwoDigits(s[3..5]) * 60 + TwoDigits(s[6..])
  }

  /** Value of two decimal digits. */
  function TwoDigits(s: string): nat
    requires |s| == 2 && IsDigit(s[0]) && IsDigit(s[1])
  {
    10 * DigitValue(s[0]) + DigitValue(s[1])
  }

  /** One line against `^\[(\d{2}:\d{2}:\d{2})\]\s*(.+)$`; the seconds are
      parseTimestamp of the captured stamp, computed through `StampValue`. */
  function ExtractLine(line: string): Option<Entry>
  {
    if |line| >= 10 && line[0] == '[' && IsStamp(line[1..9]) && line[9] == ']' then
      match MatchTail(line[10..])
      case Some(t) => Some(Entry(line[1..9], Num(StampValue(line[1..9])), t))
      case None => None
    else None
  }

  function Entries(lines: seq<string>): (r: seq<Entry>)
    ensures |r| <= |lines|
  {
    if lines == [] then []
    else
      var front := Entries(lines[..|lines| - 1]);
      match ExtractLine(lines[|lines| - 1])
      case Some(e) => front + [e]
      case None => front
  }

  /** extractTimestamps: one entry per matching line of `text.split('\n')`, in order. */
  method ExtractTimestamps(text: string) returns (entries: seq<Entry>)
    ensures entries == Entries(Split(text, '\n'))
  {
    var lines := Split(text, '\n');
    entries := [];
    var i := 0;
    while i < |lines|
      invariant 0 <= i <= |lines|
      invariant entries == Entries(lines[..i])
    {
      assert lines[..i + 1][..i] == lines[..i];
      match ExtractLine(lines[i]) {
        case Some(e) => entries := entries + [e];
        case None =>
      }
      i := i + 1;
    }
    assert lines[..i] == lines;
  }

  /** An entry as extractTimestamps promises it: a well-formed stamp, the seconds it
      denotes, and non-empty text without line terminators. */
  predicate WellFormed(e: Entry)
  {
    IsStamp(e.timestamp) && e.seconds == Num(StampValue(e.timestamp))
    && e.text != [] && NoLineTerm(e.text)
  }

  /** The seconds of a well-formed entry are what parseTimestamp reads from its stamp. */
  lemma WellFormedSeconds(e: Entry)
    requires WellFormed(e)
    ensures e.seconds == ParseTimestamp(e.timestamp)
  {
    StampSeconds(e.timestamp);
  }

  lemma {:induction false} EntriesWellFormed(lines: seq<string>)
    ensures forall e :: e in Entries(lines) ==> WellFormed(e)
  {
    if lines != [] {
      EntriesWellFormed(lines[..|lines| - 1]);
      ExtractLineWellFormed(lines[|lines| - 1]);
    }
  }

  lemma ExtractLineWellFormed(line: string)
    ensures ExtractLine(line).Some? ==> WellFormed(ExtractLine(line).value)
  {
    if |line| >= 10 {
      MatchTailSound(line[10..]);
    }
  }

  /** A two-digit field reads as its value. */
  lemma TwoDigitNumber(s: string)
    requires |s| == 2 && IsDigit(s[0]) && IsDigit(s[1])
    ensures ToNumber(s) == Num(TwoDigits(s))
  {
    DigitsUntrimmed(s);
    TwoDigitsNumber(s);
  }

  lemma TwoDigitsNumber(s: string)
    requires |s| == 2 && IsDigit(s[0]) && IsDigit(s[1])
    ensures DigitsNumber(s) == Num(TwoDigits(s))
  {
    var h := s[..1];
    assert h[..0] == [] && h[0] == s[0];
    assert DigitsNumber(h) == Num(DigitValue(s[0]));
  }

  /** parseTimestamp reads a stamp as its hours, minutes and seconds. */
  lemma StampSeconds(s: string)
    requires IsStamp(s)
    ensures ParseTimestamp(s) == Num(StampValue(s))
  {
    var a, b, c := s[..2], s[3..5], s[6..];
    StampFields(s);
    var x, y, z := TwoDigits(a), TwoDigits(b), TwoDigits(c);
    StampParse(s, a, b, c, x, y, z);
    assert StampValue(s) == x * 3600 + y * 60 + z;
  }

  lemma StampParse(s: string, a: string, b: string, c: string, x: nat, y: nat, z: nat)
    requires s == a + ":" + b + ":" + c
    requires |a| == 2 && IsDigit(a[0]) && IsDigit(a[1]) && AllDigits(a) && x == TwoDigits(a)
    requires |b| == 2 && IsDigit(b[0]) && IsDigit(b[1]) && AllDigits(b) && y == TwoDigits(b)
    requires |c| == 2 && IsDigit(c[0]) && IsDigit(c[1]) && AllDigits(c) && z == TwoDigits(c)
    ensures ParseTimestamp(s) == Num(x * 3600 + y * 60 + z)
  {
    ParseTwoDigitFields(a, b, c, x, y, z);
  }

  lemma ParseTwoDigitFields(a: string, b: string, c: string, x: nat, y: nat, z: nat)
    requires |a| == 2 && IsDigit(a[0]) && IsDigit(a[1]) && AllDigits(a) && x == TwoDigits(a)
    requires |b| == 2 && IsDigit(b[0]) && IsDigit(b[1]) && AllDigits(b) && y == TwoDigits(b)
    requires |c| == 2 && IsDigit(c[0]) && IsDigit(c[1]) && AllDigits(c) && z == TwoDigits(c)
    ensures ParseTimestamp(a + ":" + b + ":" + c) == Num(x * 3600 + y * 60 + z)
  {
    TwoDigitNumber(a);
    TwoDigitNumber(b);
    TwoDigitNumber(c);
    ParseNumberFields(a, b, c, x, y, z);
  }

  /** Three digit fields that read as `x`, `y` and `z` form a timestamp of `x` hours,
      `y` minutes and `z` seconds. */
  lemma ParseNumberFields(a: string, b: string, c: string, x: int, y: int, z: int)
    requires AllDigits(a) && AllDigits(b) && AllDigits(c)
    requires ToNumber(a) == Num(x) && ToNumber(b) == Num(y) && ToNumber(c) == Num(z)
    ensures ParseTimestamp(a + ":" + b + ":" + c) == Num(x * 3600 + y * 60 + z)
  {
    ParseThreeParts(a, b, c);
    ParseNumberParts(a, b, c, x, y, z);
  }

  lemma StampFields(s: string)
    requires IsStamp(s)
    ensures s == s[..2] + ":" + s[3..5] + ":" + s[6..]
    ensures AllDigits(s[..2]) && AllDigits(s[3..5]) && AllDigits(s[6..])
    ensures |s[..2]| == 2 && IsDigit(s[..2][0]) && IsDigit(s[..2][1])
    ensures |s[3..5]| == 2 && IsDigit(s[3..5][0]) && IsDigit(s[3..5][1])
    ensures |s[6..]| == 2 && IsDigit(s[6..][0]) && IsDigit(s[6..][1])
  {
  }

  /** A line that ends in a carriage return never matches, since `.` stops at it:
      text with CRLF line ends yields no entries at all. */
  lemma CarriageReturnLineSkipped(line: string)
    requires line != [] && line[|line| - 1] == '\r'
    ensures ExtractLine(line) == None
  {
    if |line| >= 10 {
      MatchTailSound(line[10..]);
    }
  }

  /** A line holding only its stamp has nothing for `(.+)` and is skipped. */
  lemma BareStampSkipped(stamp: string)
    requires IsStamp(stamp)
    ensures ExtractLine("[" + stamp + "]") == None
  {
    var line := "[" + stamp + "]";
    assert line[10..] == [];
  }

  // ---------------------------------------------------------------------
  // File checks

  /** isValidMP3: the MIME type is audio/mpeg or audio/mp3, or the name ends in ".mp3"
      in any letter case. */
  predicate IsValidMp3(mimeType: string, name: string)
  {
    mimeType in ["audio/mpeg", "audio/mp3"] || EndsWith(Lower(name), ".mp3")
  }

  /** isValidTextFile: the MIME type is text/plain, or the name ends in ".txt" in any
      letter case. */
  predicate IsValidTextFile(mimeType: string, name: string)
  {
    mimeType == "text/plain" || EndsWith(Lower(name), ".txt")
  }

  lemma EndsWithLower(name: string, ext: string)
    requires EndsWith(name, ext) && Lower(ext) == ext
    ensures EndsWith(Lower(name), ext)
  {
    var k := |name| - |ext|;
    forall i | 0 <= i < |ext| ensures Lower(name)[k..][i] == ext[i] {
      LowerIndex(name, k + i);
      LowerIndex(ext, i);
      assert name[k + i] == ext[i];
    }
  }

  /** The checks ignore letter case in the name: "TALK.MP3" is accepted whatever its type. */
  lemma UpperCaseExtensionAccepted(mimeType: string, stem: string)
    ensures IsValidMp3(mimeType, stem + ".MP3")
    ensures IsValidTextFile(mimeType, stem + ".TXT")
  {
    var a, b := stem + ".MP3", stem + ".TXT";
    assert Lower(a) == Lower(stem) + Lower(".MP3") by { LowerConcat(stem, ".MP3"); }
    assert Lower(".MP3") == ".mp3";
    assert Lower(a)[|Lower(a)| - 4..] == ".mp3";
    assert Lower(b) == Lower(stem) + Lower(".TXT") by { LowerConcat(stem, ".TXT"); }
    assert Lower(".TXT") == ".txt";
    assert Lower(b)[|Lower(b)| - 4..] == ".txt";
  }
}
