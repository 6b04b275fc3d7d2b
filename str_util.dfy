// Shared string vocabulary of the JavaScript and Python sources: character
// classes, case mapping, trimming, searching, splitting, joining and decimal
// digits. Strings are sequences of Unicode code points.

module StrUtil {

  datatype Option<T> = None | Some(value: T)

  // ---------------------------------------------------------------------
  // Character classes

  predicate IsDigit(c: char) { '0' <= c <= '9' }
  predicate IsLowerAscii(c: char) { 'a' <= c <= 'z' }
  predicate IsUpperAscii(c: char) { 'A' <= c <= 'Z' }
  predicate IsAlnumAscii(c: char) { IsDigit(c) || IsLowerAscii(c) || IsUpperAscii(c) }

  /** Which language's notion of white space applies: JavaScript's (`trim()`, `\s`)
      or Python's (`str.isspace()`, `strip()`, `\s` in `re`). */
  datatype Space = JsSpace | PySpace

  /** White space: below U+0085 both languages agree except that Python also counts
      the separators U+001C..U+001F; above it see `WideWhite`. */
  predicate White(ws: Space, c: char)
  {
    if c <= ' ' then ('\t' <= c <= '\r') || c == ' ' || (ws == PySpace && '\U{001C}' <= c)
    else c >= '\U{0085}' && WideWhite(ws, c)
  }

  /** White space from U+0085 on: U+0085 only for Python, the byte-order mark U+FEFF
      only for JavaScript, the rest for both. */
  predicate WideWhite(ws: Space, c: char)
  {
    (c == '\U{0085}' && ws == PySpace) || c == '\U{00A0}' || c == '\U{1680}'
    || ('\U{2000}' <= c <= '\U{200A}') || c == '\U{2028}' || c == '\U{2029}'
    || c == '\U{202F}' || c == '\U{205F}' || c == '\U{3000}'
    || (c == '\U{FEFF}' && ws == JsSpace)
  }

  /** Line terminators, which `.` does not match in a JavaScript regex. */
  predicate JsLineTerm(c: char)
  {
    c == '\n' || c == '\r' || c == '\U{2028}' || c == '\U{2029}'
  }

  /** Lower-casing of ASCII and Latin-1 capitals, where Python and JavaScript agree. */
  function LowerChar(c: char): (r: char)
    ensures IsUpperAscii(c) ==> IsLowerAscii(r)
    ensures !IsUpperAscii(c) && !('\U{00C0}' <= c <= '\U{00DE}') ==> r == c
  {
    if IsUpperAscii(c) || ('\U{00C0}' <= c <= '\U{00DE}' && c != '\U{00D7}')
    then (c as int + 32) as char
    else c
  }

  function Lower(s: string): (r: string)
    ensures |r| == |s|
  {
    if s == [] then [] else [LowerChar(s[0])] + Lower(s[1..])
  }

  /** Lower-casing works character by character. */
  lemma {:induction false} LowerIndex(s: string, i: nat)
    requires i < |s|
    ensures Lower(s)[i] == LowerChar(s[i])
    decreases i
  {
    if i > 0 {
      LowerIndex(s[1..], i - 1);
    }
  }

  /** Lower-casing twice is lower-casing once. */
  lemma {:induction false} LowerIdempotent(s: string)
    ensures Lower(Lower(s)) == Lower(s)
    decreases |s|
  {
    if s != [] {
      LowerIdempotent(s[1..]);
    }
  }

  lemma LowerConcat(a: string, b: string)
    ensures Lower(a + b) == Lower(a) + Lower(b)
  {
    var l, r := Lower(a + b), Lower(a) + Lower(b);
    forall i | 0 <= i < |l| ensures l[i] == r[i] {
      LowerIndex(a + b, i);
      if i < |a| {
        LowerIndex(a, i);
        assert (a + b)[i] == a[i];
      } else {
        LowerIndex(b, i - |a|);
        assert (a + b)[i] == b[i - |a|];
      }
    }
  }

  // ---------------------------------------------------------------------
  // Prefixes, suffixes, search

  predicate StartsWith(s: string, p: string) { |p| <= |s| && s[..|p|] == p }
  predicate EndsWith(s: string, p: string) { |p| <= |s| && s[|s| - |p|..] == p }

  /** `p` occurs in `s` at position `i`. */
  predicate OccursAt(s: string, p: string, i: int)
  {
    0 <= i && i + |p| <= |s| && s[i..i + |p|] == p
  }

  /** Python's `p in s`, JavaScript's `s.includes(p)`. */
  predicate Contains(s: string, p: string)
  {
    exists i :: 0 <= i <= |s| && OccursAt(s, p, i)
  }

  lemma ContainsAt(s: string, p: string, i: int)
    requires OccursAt(s, p, i)
    ensures Contains(s, p)
  {
  }

  /** Index of the first occurrence of `p` in `s`, searching from `from`. */
  function IndexOfFrom(s: string, p: string, from: nat): (r: Option<nat>)
    requires from <= |s|
    ensures r.Some? ==> from <= r.value && OccursAt(s, p, r.value)
    ensures r.Some? ==> forall j :: from <= j < r.value ==> !OccursAt(s, p, j)
    ensures r.None? ==> forall j :: from <= j <= |s| ==> !OccursAt(s, p, j)
    decreases |s| - from
  {
    if OccursAt(s, p, from) then Some(from)
    else if from == |s| then None
    else IndexOfFrom(s, p, from + 1)
  }

  function IndexOf(s: string, p: string): (r: Option<nat>)
    ensures r.Some? ==> OccursAt(s, p, r.value)
    ensures r.Some? ==> forall j :: 0 <= j < r.value ==> !OccursAt(s, p, j)
    ensures r.None? <==> !Contains(s, p)
  {
    IndexOfFrom(s, p, 0)
  }

  /** Index of the last occurrence of character `c`, if any. */
  function LastIndexOf(s: string, c: char): (r: Option<nat>)
    ensures r.Some? ==> r.value < |s| && s[r.value] == c
  {
    if s == [] then None
    else if s[|s| - 1] == c then Some(|s| - 1)
    else LastIndexOf(s[..|s| - 1], c)
  }

  // ---------------------------------------------------------------------
  // Trimming

  function TrimStart(s: string, ws: Space): (r: string)
    ensures |r| <= |s| && r == s[|s| - |r|..]
  {
    if s != [] && White(ws, s[0]) then TrimStart(s[1..], ws) else s
  }

  function TrimEnd(s: string, ws: Space): (r: string)
    ensures |r| <= |s| && r == s[..|r|]
  {
    if s != [] && White(ws, s[|s| - 1]) then TrimEnd(s[..|s| - 1], ws) else s
  }

  /** TrimStart removes exactly the longest white prefix. */
  lemma TrimStartSpec(s: string, ws: Space)
    ensures TrimStart(s, ws) == [] || !White(ws, TrimStart(s, ws)[0])
    ensures AllWhite(s[..|s| - |TrimStart(s, ws)|], ws)
  {
    TrimStartStops(s, ws);
    TrimStartDropsWhite(s, ws);
  }

  lemma {:induction false} TrimStartStops(s: string, ws: Space)
    ensures TrimStart(s, ws) == [] || !White(ws, TrimStart(s, ws)[0])
    decreases |s|
  {
    if s != [] && White(ws, s[0]) {
      TrimStartStops(s[1..], ws);
    }
  }

  lemma {:induction false} TrimStartDropsWhite(s: string, ws: Space)
    ensures AllWhite(s[..|s| - |TrimStart(s, ws)|], ws)
    decreases |s|
  {
    if s != [] && White(ws, s[0]) {
      TrimStartDropsWhite(s[1..], ws);
      WhiteCons(s, |s| - |TrimStart(s[1..], ws)|, ws);
    }
  }

  lemma WhiteCons(s: string, k: int, ws: Space)
    requires 1 <= k <= |s| && White(ws, s[0]) && AllWhite(s[1..][..k - 1], ws)
    ensures AllWhite(s[..k], ws)
  {
    forall i | 1 <= i < k ensures White(ws, s[..k][i]) {
      assert s[..k][i] == s[1..][..k - 1][i - 1];
    }
  }

  /** TrimEnd removes exactly the longest white suffix. */
  lemma {:induction false} TrimEndSpec(s: string, ws: Space)
    ensures TrimEnd(s, ws) == [] || !White(ws, TrimEnd(s, ws)[|TrimEnd(s, ws)| - 1])
    ensures AllWhite(s[|TrimEnd(s, ws)|..], ws)
    decreases |s|
  {
    if s != [] && White(ws, s[|s| - 1]) {
      TrimEndSpec(s[..|s| - 1], ws);
      var k := |TrimEnd(s, ws)|;
      forall i | 0 <= i < |s| - k ensures White(ws, s[k..][i]) {
        if k + i < |s| - 1 { assert s[k..][i] == s[..|s| - 1][k..][i]; }
      }
    }
  }

  /** JavaScript's `String.prototype.trim`. */
  function Trim(s: string): string { TrimEnd(TrimStart(s, JsSpace), JsSpace) }

  /** Python's `str.strip()` with no argument. */
  function Strip(s: string): string { TrimEnd(TrimStart(s, PySpace), PySpace) }

  predicate AllWhite(s: string, ws: Space)
  {
    forall i :: 0 <= i < |s| ==> White(ws, s[i])
  }

  // ---------------------------------------------------------------------
  // Splitting and joining

  /** `s.split(c)` in both languages: the pieces between occurrences of `c`. */
  function Split(s: string, c: char): (r: seq<string>)
    ensures |r| >= 1
  {
    match LastIndexOf(s, c)
    case None => [s]
    case Some(i) => Split(s[..i], c) + [s[i + 1..]]
  }

  /** No piece of a split holds the separator. */
  lemma {:induction false} SplitPiecesFree(s: string, c: char)
    ensures forall k :: 0 <= k < |Split(s, c)| ==> c !in Split(s, c)[k]
    decreases |s|
  {
    match LastIndexOf(s, c)
    case None =>
      LastIndexOfNone(s, c);
    case Some(i) =>
      SplitPiecesFree(s[..i], c);
      LastIndexOfAfter(s, c);
      var t := s[i + 1..];
      forall j | 0 <= j < |t| ensures t[j] != c {
        assert t[j] == s[i + 1 + j];
      }
  }

  /** `parts.join(sep)` in JavaScript, `sep.join(parts)` in Python. */
  function Join(parts: seq<string>, sep: string): string
  {
    if parts == [] then ""
    else if |parts| == 1 then parts[0]
    else Join(parts[..|parts| - 1], sep) + sep + parts[|parts| - 1]
  }

  lemma {:induction false} JoinSplit(s: string, c: char)
    ensures Join(Split(s, c), [c]) == s
    decreases |s|
  {
    match LastIndexOf(s, c)
    case None =>
    case Some(i) =>
      JoinSplit(s[..i], c);
      var front := Split(s[..i], c);
      assert Split(s, c) == front + [s[i + 1..]];
      assert (front + [s[i + 1..]])[..|front|] == front;
      assert s == s[..i] + [c] + s[i + 1..];
  }

  lemma {:induction false} SplitJoin(parts: seq<string>, c: char)
    requires |parts| >= 1
    requires forall k :: 0 <= k < |parts| ==> c !in parts[k]
    ensures Split(Join(parts, [c]), c) == parts
    decreases |parts|
  {
    if |parts| > 1 {
      var front := parts[..|parts| - 1];
      var last := parts[|parts| - 1];
      var j := Join(front, [c]);
      SplitJoin(front, c);
      LastSeparator(j, last, c);
      assert parts == front + [last];
    }
  }

  lemma LastSeparator(j: string, last: string, c: char)
    requires c !in last
    ensures LastIndexOf(j + [c] + last, c) == Some(|j|)
    ensures (j + [c] + last)[..|j|] == j && (j + [c] + last)[|j| + 1..] == last
  {
    var s := j + [c] + last;
    forall k | |j| < k < |s| ensures s[k] != c {
      assert s[k] == last[k - |j| - 1];
    }
    LastIndexOfIs(s, |j|, c);
    assert s[..|j|] == j;
    assert s[|j| + 1..] == last;
  }

  /** Without a last occurrence there is no occurrence at all. */
  lemma {:induction false} LastIndexOfNone(s: string, c: char)
    requires LastIndexOf(s, c).None?
    ensures c !in s
    decreases |s|
  {
    if s != [] {
      LastIndexOfNone(s[..|s| - 1], c);
      assert s == s[..|s| - 1] + [s[|s| - 1]];
    }
  }

  /** A character that does not occur has no last occurrence. */
  lemma {:induction false} LastIndexOfAbsent(s: string, c: char)
    requires c !in s
    ensures LastIndexOf(s, c) == None
    decreases |s|
  {
    if s != [] {
      LastIndexOfAbsent(s[..|s| - 1], c);
    }
  }

  /** No occurrence follows the last one. */
  lemma {:induction false} LastIndexOfAfter(s: string, c: char)
    requires LastIndexOf(s, c).Some?
    ensures forall j :: LastIndexOf(s, c).value < j < |s| ==> s[j] != c
    decreases |s|
  {
    if s[|s| - 1] != c {
      LastIndexOfAfter(s[..|s| - 1], c);
    }
  }

  /** The last occurrence is determined by the characters after it. */
  lemma {:induction false} LastIndexOfIs(s: string, i: nat, c: char)
    requires i < |s| && s[i] == c
    requires forall k :: i < k < |s| ==> s[k] != c
    ensures LastIndexOf(s, c) == Some(i)
    decreases |s|
  {
    if i < |s| - 1 {
      LastIndexOfIs(s[..|s| - 1], i, c);
    }
  }

  /** Joining two non-empty lists puts one separator between their joins. */
  lemma {:induction false} JoinAppend(a: seq<string>, b: seq<string>, sep: string)
    requires a != [] && b != []
    ensures Join(a + b, sep) == Join(a, sep) + sep + Join(b, sep)
    decreases |b|
  {
    var ab := a + b;
    var front, last := b[..|b| - 1], b[|b| - 1];
    assert ab[..|ab| - 1] == a + front;
    assert ab[|ab| - 1] == last;
    if |b| > 1 {
      JoinAppend(a, front, sep);
      var x, y := Join(a, sep) + sep, Join(front, sep);
      assert Join(b, sep) == y + sep + last;
      assert Join(ab, sep) == x + y + sep + last;
      AppendAssoc(x, y + sep, last);
      AppendAssoc(x, y, sep);
    }
  }

  // ---------------------------------------------------------------------
  // POSIX path names (Python's `posixpath`)

  /** `os.path.basename`: everything after the last '/'. */
  function PosixBasename(p: string): (r: string)
    ensures '/' !in r && EndsWith(p, r)
  {
    match LastIndexOf(p, '/')
    case None => LastIndexOfNone(p, '/'); p
    case Some(i) => LastIndexOfAfter(p, '/'); AfterLast(p, i)
  }

  function AfterLast(p: string, i: nat): (r: string)
    requires i < |p| && forall j :: i < j < |p| ==> p[j] != '/'
    ensures '/' !in r && EndsWith(p, r) && r == p[i + 1..]
  {
    var r := p[i + 1..];
    assert forall j :: 0 <= j < |r| ==> r[j] == p[i + 1 + j];
    r
  }

  // ---------------------------------------------------------------------
  // Windows path names: Node's `path` on Windows (`path.win32`), which the server
  // uses, and the separators Python's `ntpath` shares with it

  /** Both '/' and the backslash separate path components on Windows. */
  predicate WinSep(c: char) { c == '/' || c == '\\' }

  /** A drive prefix as Node reads it: an ASCII letter followed by ':'. */
  predicate DriveRoot(p: string)
  {
    |p| >= 2 && ('A' <= p[0] <= 'Z' || 'a' <= p[0] <= 'z') && p[1] == ':'
  }

  /** `path.isAbsolute`: a leading separator, or a drive followed by a separator. */
  predicate NodeIsAbsolute(p: string)
  {
    (p != [] && WinSep(p[0])) || (|p| > 2 && DriveRoot(p) && WinSep(p[2]))
  }

  /** The characters after the last separator. */
  function AfterLastSep(p: string): (r: string)
    ensures EndsWith(p, r) && forall i :: 0 <= i < |r| ==> !WinSep(r[i])
  {
    if p == [] || WinSep(p[|p| - 1]) then [] else AfterLastSep(p[..|p| - 1]) + [p[|p| - 1]]
  }

  function DropTrailingSeps(p: string): (r: string)
    ensures StartsWith(p, r) && (r == [] || !WinSep(r[|r| - 1]))
  {
    if p != [] && WinSep(p[|p| - 1]) then DropTrailingSeps(p[..|p| - 1]) else p
  }

  /** `path.basename`: without its drive and its trailing separators, the text after the
      last separator. */
  function NodeBasename(p: string): (r: string)
    ensures forall i :: 0 <= i < |r| ==> !WinSep(r[i])
  {
    AfterLastSep(DropTrailingSeps(if DriveRoot(p) then p[2..] else p))
  }

  /** A name without separators and without a drive. */
  predicate PlainName(s: string)
  {
    (forall i :: 0 <= i < |s| ==> !WinSep(s[i])) && !DriveRoot(s)
  }

  /** A plain name is its own base name. */
  lemma PlainBasename(s: string)
    requires PlainName(s)
    ensures NodeBasename(s) == s
  {
    if s != [] {
      assert !WinSep(s[|s| - 1]);
    }
    AfterLastSepPlain(s);
  }

  /** The base name of a path ending in a separator and a non-empty plain name is that
      name, whatever comes before: "D:\\audio\\x.mp3" has the base name "x.mp3". */
  lemma BasenameAfterSep(dir: string, sep: char, name: string)
    requires WinSep(sep) && name != [] && PlainName(name)
    ensures NodeBasename(dir + [sep] + name) == name
  {
    var p := dir + [sep] + name;
    var q := if DriveRoot(p) then p[2..] else p;
    var d := if DriveRoot(p) then dir[2..] else dir;
    assert DriveRoot(p) ==> |dir| >= 2 by {
      if |dir| == 1 { assert p[1] == sep; }
      if dir == [] { assert p[0] == sep; }
    }
    assert q == d + [sep] + name;
    assert q[|q| - 1] == name[|name| - 1];
    AfterSepPlain(d, sep, name);
  }

  lemma {:induction false} AfterSepPlain(d: string, sep: char, name: string)
    requires WinSep(sep) && forall i :: 0 <= i < |name| ==> !WinSep(name[i])
    ensures AfterLastSep(d + [sep] + name) == name
    decreases |name|
  {
    var p := d + [sep] + name;
    if name != [] {
      var front := name[..|name| - 1];
      assert p[..|p| - 1] == d + [sep] + front;
      AfterSepPlain(d, sep, front);
      assert name == front + [name[|name| - 1]];
    }
  }

  lemma {:induction false} AfterLastSepPlain(s: string)
    requires forall i :: 0 <= i < |s| ==> !WinSep(s[i])
    ensures AfterLastSep(s) == s
  {
    if s != [] {
      AfterLastSepPlain(s[..|s| - 1]);
    }
  }

  /** `os.path.splitext(p)[0]`: the text before the last '.' of the final path
      component, provided some character other than '.' comes before that dot in the
      component (so ".bashrc" and "..txt" keep their names whole). */
  function SplitExtRoot(p: string): (r: string)
    ensures StartsWith(p, r)
  {
    match LastIndexOf(p, '.')
    case None => p
    case Some(d) =>
      var start := match LastIndexOf(p, '/') case None => 0 case Some(i) => i + 1;
      if start <= d && exists k :: start <= k < d && p[k] != '.' then p[..d] else p
  }

  /** Python's `str.splitlines()` restricted to `\n` terminators, and JavaScript's `split('\n')`
      followed by dropping one trailing empty piece, are built from this. */
  function Concat(parts: seq<string>): string
  {
    if parts == [] then "" else Concat(parts[..|parts| - 1]) + parts[|parts| - 1]
  }

  /** Concatenation regrouped; stated once so that long chains need not be. */
  lemma AppendAssoc<T>(a: seq<T>, b: seq<T>, c: seq<T>)
    ensures a + (b + c) == a + b + c
  {
  }

  /** No line holds a line break. */
  predicate Unbroken(ls: seq<string>)
  {
    forall k :: 0 <= k < |ls| ==> '\n' !in ls[k]
  }

  lemma UnbrokenAppend(a: seq<string>, b: seq<string>)
    requires Unbroken(a) && Unbroken(b)
    ensures Unbroken(a + b)
  {
    forall k | 0 <= k < |a + b| ensures '\n' !in (a + b)[k] {
      if k < |a| { assert (a + b)[k] == a[k]; } else { assert (a + b)[k] == b[k - |a|]; }
    }
  }

  lemma UnbrokenSlice(a: seq<string>, i: nat, j: nat)
    requires Unbroken(a) && i <= j <= |a|
    ensures Unbroken(a[i..j])
  {
    forall k | 0 <= k < j - i ensures '\n' !in a[i..j][k] {
      assert a[i..j][k] == a[i + k];
    }
  }

  lemma NoBreakJoined(a: string, b: string)
    requires '\n' !in a && '\n' !in b
    ensures '\n' !in a + b
  {
  }

  lemma DigitsUnbroken(d: string)
    requires AllDigits(d)
    ensures '\n' !in d
  {
  }

  /** Lines each followed by "\n", as a loop appending `line + "\n"` builds them. */
  function Terminated(lines: seq<string>): string
  {
    if lines == [] then "" else Terminated(lines[..|lines| - 1]) + lines[|lines| - 1] + "\n"
  }

  /** Appending one more line. */
  lemma PushLine(done: seq<string>, x: string)
    ensures Terminated(done + [x]) == Terminated(done) + (x + "\n")
  {
    assert (done + [x])[..|done|] == done;
    AppendAssoc(Terminated(done), x, "\n");
  }

  lemma {:induction false} TerminatedAppend(a: seq<string>, b: seq<string>)
    ensures Terminated(a + b) == Terminated(a) + Terminated(b)
    decreases |b|
  {
    if b != [] {
      var front := b[..|b| - 1];
      TerminatedAppend(a, front);
      assert (a + b)[..|a + b| - 1] == a + front;
      var last := b[|b| - 1];
      assert Terminated(a + b) == Terminated(a + front) + last + "\n";
      assert Terminated(b) == Terminated(front) + last + "\n";
      AppendAssoc(Terminated(a), Terminated(front), last);
      AppendAssoc(Terminated(a), Terminated(front) + last, "\n");
    } else {
      assert a + b == a;
    }
  }

  /** Terminated lines are the lines joined by "\n" with one more "\n" at the end. */
  lemma {:induction false} TerminatedJoin(lines: seq<string>)
    ensures Terminated(lines) == Join(lines + [""], "\n")
    decreases |lines|
  {
    if lines != [] {
      var front := lines[..|lines| - 1];
      TerminatedJoin(front);
      var l := lines + [""];
      assert l[..|l| - 1] == lines && l[|l| - 1] == "";
      assert lines + [""] == front + [lines[|lines| - 1]] + [""];
      assert (front + [""])[..|front|] == front;
      if front != [] {
        assert Join(front + [""], "\n") == Join(front, "\n") + "\n" + "";
        assert Join(lines, "\n") == Join(front, "\n") + "\n" + lines[|lines| - 1];
      } else {
        assert lines == [lines[0]];
      }
    }
  }

  /** Splitting terminated lines at "\n" gives the lines back and one empty piece. */
  lemma TerminatedSplit(lines: seq<string>)
    requires Unbroken(lines)
    ensures Split(Terminated(lines), '\n') == lines + [""]
  {
    TerminatedJoin(lines);
    var l := lines + [""];
    forall k | 0 <= k < |l| ensures '\n' !in l[k] {
      if k < |lines| { assert l[k] == lines[k]; }
    }
    SplitJoin(l, '\n');
  }

  /** `\[\d{2}:\d{2}:\d{2}\] ` matches at position `i`. */
  predicate StampTokenAt(s: string, i: nat)
  {
    i + 11 <= |s| && s[i] == '[' && IsDigit(s[i + 1]) && IsDigit(s[i + 2]) && s[i + 3] == ':'
    && IsDigit(s[i + 4]) && IsDigit(s[i + 5]) && s[i + 6] == ':' && IsDigit(s[i + 7])
    && IsDigit(s[i + 8]) && s[i + 9] == ']' && s[i + 10] == ' '
  }

  // ---------------------------------------------------------------------
  // Replacing

  /** Replaces every occurrence of `pat` by `rep`, scanning left to right without
      overlap: Python's `str.replace` and JavaScript's `replaceAll` on a literal. */
  function ReplaceAll(s: string, pat: string, rep: string): (r: string)
    requires pat != []
    decreases |s|
  {
    if |s| < |pat| then s
    else if s[..|pat|] == pat then rep + ReplaceAll(s[|pat|..], pat, rep)
    else [s[0]] + ReplaceAll(s[1..], pat, rep)
  }

  lemma {:induction false} ReplaceAllAbsent(s: string, pat: string, rep: string)
    requires pat != [] && !Contains(s, pat)
    ensures ReplaceAll(s, pat, rep) == s
    decreases |s|
  {
    if |s| >= |pat| {
      ContainsShift(s, pat);
      ReplaceAllAbsent(s[1..], pat, rep);
    }
  }

  lemma ContainsShift(s: string, pat: string)
    requires s != []
    ensures StartsWith(s, pat) || Contains(s[1..], pat) ==> Contains(s, pat)
  {
    if StartsWith(s, pat) {
      assert OccursAt(s, pat, 0);
    } else if Contains(s[1..], pat) {
      var i :| 0 <= i <= |s[1..]| && OccursAt(s[1..], pat, i);
      assert s[i + 1..i + 1 + |pat|] == s[1..][i..i + |pat|];
      assert OccursAt(s, pat, i + 1);
    }
  }

  // ---------------------------------------------------------------------
  // JavaScript numbers restricted to integers

  /** A JavaScript number as far as the sources use it: an integer or NaN. */
  datatype JsNumber = Num(n: int) | NaN

  function JsAdd(a: JsNumber, b: JsNumber): JsNumber
  {
    if a.Num? && b.Num? then Num(a.n + b.n) else NaN
  }

  function JsScale(a: JsNumber, k: int): JsNumber
  {
    if a.Num? then Num(a.n * k) else NaN
  }

  /** JavaScript's `Number(s)` on strings: surrounding white space is ignored, the empty
      string is 0, and a run of decimal digits is its value; anything else is NaN. */
  function ToNumber(s: string): JsNumber
  {
    DigitsNumber(Trim(s))
  }

  /** Value of a run of decimal digits, NaN when some character is not a digit. */
  function DigitsNumber(t: string): JsNumber
  {
    if t == [] then Num(0)
    else if !IsDigit(t[|t| - 1]) then NaN
    else JsAdd(JsScale(DigitsNumber(t[..|t| - 1]), 10), Num(DigitValue(t[|t| - 1])))
  }

  lemma {:induction false} DigitsNumberValue(t: string)
    requires AllDigits(t)
    ensures DigitsNumber(t) == Num(DigitsValue(t))
  {
    if t != [] {
      DigitsNumberValue(t[..|t| - 1]);
    }
  }

  lemma ToNumberOfDigits(s: string)
    requires AllDigits(s)
    ensures ToNumber(s) == Num(DigitsValue(s))
  {
    DigitsUntrimmed(s);
    DigitsNumberValue(s);
  }

  /** Trimming leaves a run of digits alone. */
  lemma DigitsUntrimmed(s: string)
    requires AllDigits(s)
    ensures Trim(s) == s
  {
    DigitsNoLeadingWhite(s);
    DigitsNoTrailingWhite(s);
  }

  lemma DigitsNoLeadingWhite(s: string)
    requires AllDigits(s)
    ensures TrimStart(s, JsSpace) == s
  {
  }

  lemma DigitsNoTrailingWhite(s: string)
    requires AllDigits(s)
    ensures TrimEnd(s, JsSpace) == s
  {
  }

  // ---------------------------------------------------------------------
  // Decimal digits

  function DigitChar(d: nat): char
    requires d < 10
  {
    ('0' as int + d) as char
  }

  function DigitValue(c: char): nat
    requires IsDigit(c)
  {
    c as int - '0' as int
  }

  /** Shortest decimal spelling of a natural number, as `str(n)` and `String(n)` give it. */
  function NatToString(n: nat): (r: string)
    ensures |r| >= 1
    ensures forall i :: 0 <= i < |r| ==> IsDigit(r[i])
    ensures n < 10 <==> |r| == 1
  {
    if n < 10 then [DigitChar(n)] else NatToString(n / 10) + [DigitChar(n % 10)]
  }

  predicate AllDigits(s: string) { forall i :: 0 <= i < |s| ==> IsDigit(s[i]) }

  /** Value of a string of decimal digits (leading zeros allowed, "" is 0). */
  function DigitsValue(s: string): nat
    requires AllDigits(s)
  {
    if s == [] then 0 else 10 * DigitsValue(s[..|s| - 1]) + DigitValue(s[|s| - 1])
  }

  lemma {:induction false} DigitsValueOfNat(n: nat)
    ensures DigitsValue(NatToString(n)) == n
  {
    if n >= 10 {
      DigitsValueOfNat(n / 10);
      var s := NatToString(n);
      assert s[..|s| - 1] == NatToString(n / 10);
    }
  }

  lemma {:induction false} DigitsValueLeadingZeros(z: string, s: string)
    requires forall i :: 0 <= i < |z| ==> z[i] == '0'
    requires AllDigits(s)
    ensures AllDigits(z + s) && DigitsValue(z + s) == DigitsValue(s)
    decreases |z| + |s|
  {
    if s == [] {
      assert z + s == z;
      if z != [] {
        DigitsValueLeadingZeros(z[..|z| - 1], []);
        assert z[..|z| - 1] + [] == z[..|z| - 1];
      }
    } else {
      var t := s[..|s| - 1];
      DigitsValueLeadingZeros(z, t);
      assert (z + s)[..|z + s| - 1] == z + t;
    }
  }

  function Repeat(c: char, n: nat): (r: string)
    ensures |r| == n && forall i :: 0 <= i < n ==> r[i] == c
  {
    if n == 0 then [] else [c] + Repeat(c, n - 1)
  }

  /** JavaScript's `s.padStart(n, '0')` and Python's `%0Nd` padding. */
  function PadZero(s: string, n: nat): (r: string)
    ensures |r| == if |s| < n then n else |s|
    ensures EndsWith(r, s)
  {
    if |s| < n then Repeat('0', n - |s|) + s else s
  }

  /** Zero-padded decimal spelling of `n` with at least `width` digits. */
  function PadNat(n: nat, width: nat): (r: string)
    ensures AllDigits(r) && |r| >= width
  {
    PadZero(NatToString(n), width)
  }

  /** The padded spelling still denotes `n`. */
  lemma PadNatValue(n: nat, width: nat)
    ensures DigitsValue(PadNat(n, width)) == n
  {
    DigitsValueOfNat(n);
    PadZeroValue(NatToString(n), width);
  }

  lemma PadZeroValue(s: string, width: nat)
    requires AllDigits(s)
    ensures AllDigits(PadZero(s, width)) && DigitsValue(PadZero(s, width)) == DigitsValue(s)
  {
    if |s| < width {
      DigitsValueLeadingZeros(Repeat('0', width - |s|), s);
    }
  }

  lemma PadNatTwoDigits(n: nat)
    requires n < 100
    ensures |PadNat(n, 2)| == 2
  {
  }

  // ---------------------------------------------------------------------
  // Phrase tables: progress classifiers that test a line for key phrases

  /** An `if / elif` chain: the value of the first phrase contained in `s`. */
  function FirstMatch(table: seq<(string, int)>, s: string, default: int): int
  {
    if table == [] then default
    else if Contains(s, table[0].0) then table[0].1
    else FirstMatch(table[1..], s, default)
  }

  /** A run of independent `if`s, each overwriting the value when its phrase occurs. */
  function SequentialIfs(table: seq<(string, int)>, s: string, current: int): int
  {
    if table == [] then current
    else SequentialIfs(table[1..], s, if Contains(s, table[0].0) then table[0].1 else current)
  }

  /** The first-match chain picks the entry of the least index whose phrase occurs. */
  lemma {:induction false} FirstMatchIs(table: seq<(string, int)>, s: string, default: int, k: nat)
    requires k < |table| && Contains(s, table[k].0)
    requires forall j :: 0 <= j < k ==> !Contains(s, table[j].0)
    ensures FirstMatch(table, s, default) == table[k].1
  {
    if k > 0 {
      FirstMatchIs(table[1..], s, default, k - 1);
    }
  }

  lemma {:induction false} FirstMatchNone(table: seq<(string, int)>, s: string, default: int)
    requires forall j :: 0 <= j < |table| ==> !Contains(s, table[j].0)
    ensures FirstMatch(table, s, default) == default
  {
    if table != [] {
      FirstMatchNone(table[1..], s, default);
    }
  }

  /** The chain of independent `if`s ends with the entry of the greatest index whose
      phrase occurs. */
  lemma {:induction false} SequentialIfsIs(table: seq<(string, int)>, s: string, current: int, k: nat)
    requires k < |table| && Contains(s, table[k].0)
    requires forall j :: k < j < |table| ==> !Contains(s, table[j].0)
    ensures SequentialIfs(table, s, current) == table[k].1
  {
    var next := if Contains(s, table[0].0) then table[0].1 else current;
    if k > 0 {
      SequentialIfsIs(table[1..], s, next, k - 1);
    } else {
      SequentialIfsNone(table[1..], s, next);
    }
  }

  lemma {:induction false} SequentialIfsNone(table: seq<(string, int)>, s: string, current: int)
    requires forall j :: 0 <= j < |table| ==> !Contains(s, table[j].0)
    ensures SequentialIfs(table, s, current) == current
  {
    if table != [] {
      SequentialIfsNone(table[1..], s, current);
    }
  }

  // ---------------------------------------------------------------------
  // Filtering (`Array.prototype.filter`)

  /** The elements satisfying `keep`, in their order. */
  function Filter<T>(s: seq<T>, keep: T -> bool): (r: seq<T>)
    ensures |r| <= |s|
    decreases |s|
  {
    if s == [] then []
    else Filter(s[..|s| - 1], keep) + (if keep(s[|s| - 1]) then [s[|s| - 1]] else [])
  }

  /** Filtering a concatenation filters each part: the kept elements stay in order. */
  lemma {:induction false} FilterAppend<T>(a: seq<T>, b: seq<T>, keep: T -> bool)
    ensures Filter(a + b, keep) == Filter(a, keep) + Filter(b, keep)
    decreases |b|
  {
    if b != [] {
      var front := b[..|b| - 1];
      assert (a + b)[..|a + b| - 1] == a + front;
      var last := b[|b| - 1];
      assert (a + b)[|a + b| - 1] == last;
      FilterAppend(a, front, keep);
      var l := if keep(last) then [last] else [];
      assert Filter(b, keep) == Filter(front, keep) + l;
      assert Filter(a + b, keep) == Filter(a + front, keep) + l;
    } else {
      assert a + b == a;
    }
  }

  /** An element is kept exactly when it is in the sequence and satisfies `keep`. */
  lemma {:induction false} FilterMembers<T>(s: seq<T>, keep: T -> bool, x: T)
    ensures x in Filter(s, keep) <==> x in s && keep(x)
    decreases |s|
  {
    if s != [] {
      var front := s[..|s| - 1];
      FilterMembers(front, keep, x);
      assert s == front + [s[|s| - 1]];
    }
  }

  /** Filtering twice is filtering once. */
  lemma {:induction false} FilterTwice<T>(s: seq<T>, keep: T -> bool)
    ensures Filter(Filter(s, keep), keep) == Filter(s, keep)
    decreases |s|
  {
    if s != [] {
      var front := s[..|s| - 1];
      var last := s[|s| - 1];
      FilterTwice(front, keep);
      FilterAppend(Filter(front, keep), if keep(last) then [last] else [], keep);
    }
  }

  /** A test every element passes keeps the sequence as it is. */
  lemma {:induction false} FilterAll<T>(s: seq<T>, keep: T -> bool)
    requires forall k :: 0 <= k < |s| ==> keep(s[k])
    ensures Filter(s, keep) == s
    decreases |s|
  {
    if s != [] {
      FilterAll(s[..|s| - 1], keep);
      assert s == s[..|s| - 1] + [s[|s| - 1]];
    }
  }

  /** Tests that agree on every element keep the same elements. */
  lemma {:induction false} FilterCongruent<T>(s: seq<T>, p: T -> bool, q: T -> bool)
    requires forall x :: p(x) == q(x)
    ensures Filter(s, p) == Filter(s, q)
    decreases |s|
  {
    if s != [] {
      FilterCongruent(s[..|s| - 1], p, q);
    }
  }

  /** `a` is `b` with some elements left out: an order-preserving sublist. */
  ghost predicate Sublist<T>(a: seq<T>, b: seq<T>)
    decreases |b|
  {
    if a == [] then true
    else if b == [] then false
    else if a[|a| - 1] == b[|b| - 1] then Sublist(a[..|a| - 1], b[..|b| - 1])
    else Sublist(a, b[..|b| - 1])
  }

  /** The filtered sequence is an order-preserving sublist of the sequence. */
  lemma {:induction false} FilterSublist<T>(s: seq<T>, keep: T -> bool)
    ensures Sublist(Filter(s, keep), s)
    decreases |s|
  {
    if s != [] {
      var front, x := s[..|s| - 1], s[|s| - 1];
      assert s == front + [x];
      FilterSublist(front, keep);
      var r := Filter(front, keep);
      if keep(x) {
        assert (r + [x])[..|r|] == r;
      } else {
        assert Filter(s, keep) == r;
        SublistExtend(r, front, x);
      }
    }
  }

  lemma {:induction false} SublistExtend<T>(a: seq<T>, b: seq<T>, x: T)
    requires Sublist(a, b)
    ensures Sublist(a, b + [x])
    decreases |b|, 1
  {
    assert (b + [x])[..|b|] == b;
    if a != [] && a[|a| - 1] == x {
      SublistDropLast(a, b);
    }
  }

  /** Dropping the last element of a sublist keeps it a sublist. */
  lemma {:induction false} SublistDropLast<T>(a: seq<T>, b: seq<T>)
    requires a != [] && Sublist(a, b)
    ensures Sublist(a[..|a| - 1], b)
    decreases |b|, 0
  {
    var front := b[..|b| - 1];
    assert front + [b[|b| - 1]] == b;
    if a[|a| - 1] != b[|b| - 1] {
      SublistDropLast(a, front);
    }
    SublistExtend(a[..|a| - 1], front, b[|b| - 1]);
  }
}
