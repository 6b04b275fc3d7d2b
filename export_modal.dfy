// client/src/components/ExportModal.js: the metadata filter for users who are not
// administrators, the download name, and the line-by-line HTML of the PDF export.
// The blob download, the print window and the surrounding HTML document are not
// modelled.

module ExportModal {
  import opened StrUtil

  // ---------------------------------------------------------------------
  // Hidden metadata lines (the same list as in TranscriptView.js)

  /** Lines whose trimmed text starts with one of these are hidden from users who are
      not administrators. */
  const HiddenPrefixes: seq<string> := [
    "Datum:", "Start:", "Ende:", "Dauer:", "Ratio:", "Umbruch:", "Modell:", "Typ:",
    "\U{2550}", "MP3-Transkription", "Zusammenfassung des Transkripts"]

  /** No hidden prefix starts the trimmed line. */
  predicate Shown(line: string)
  {
    !exists k :: 0 <= k < |HiddenPrefixes| && StartsWith(Trim(line), HiddenPrefixes[k])
  }

  /** `filterTranscriptionForUser`: administrators get the text unchanged, everybody
      else the text without its hidden lines. */
  function FilterForUser(text: string, isAdmin: bool): (r: string)
  {
    if isAdmin then text
    else Join(Filter(Split(text, '\n'), Shown), "\n")
  }

  /** Administrators see the whole text. */
  lemma AdminSeesAll(text: string)
    ensures FilterForUser(text, true) == text
  {
  }

  /** For everybody else exactly the shown lines remain, in their order: each remaining
      line is a shown line of the text and each shown line of the text remains. */
  lemma {:induction false} UserSeesShownLines(text: string)
    ensures var kept := Filter(Split(text, '\n'), Shown);
      FilterForUser(text, false) == Join(kept, "\n")
      && (forall x :: x in kept <==> x in Split(text, '\n') && Shown(x))
  {
    forall x ensures x in Filter(Split(text, '\n'), Shown) <==> x in Split(text, '\n') && Shown(x) {
      FilterMembers(Split(text, '\n'), Shown, x);
    }
  }

  /** The empty line is shown: no hidden prefix is empty. */
  lemma EmptyLineShown()
    ensures Shown("")
  {
    assert Trim("") == "";
    forall k | 0 <= k < |HiddenPrefixes| ensures !StartsWith("", HiddenPrefixes[k]) {
      PrefixNonEmpty(k);
    }
  }

  lemma PrefixNonEmpty(k: nat)
    requires k < |HiddenPrefixes|
    ensures HiddenPrefixes[k] != []
  {
  }

  /** Filtering the filtered text changes nothing. */
  lemma FilterIdempotent(text: string)
    ensures FilterForUser(FilterForUser(text, false), false) == FilterForUser(text, false)
  {
    var lines := Split(text, '\n');
    var kept := Filter(lines, Shown);
    if kept == [] {
      assert Join(kept, "\n") == "";
      assert Split("", '\n') == [""];
      EmptyLineShown();
      assert Filter([""], Shown) == [""] by { assert [""][..0] == []; }
    } else {
      SplitPiecesFree(text, '\n');
      forall k | 0 <= k < |kept| ensures '\n' !in kept[k] {
        FilterMembers(lines, Shown, kept[k]);
      }
      SplitJoin(kept, '\n');
      FilterTwice(lines, Shown);
    }
  }

  // ---------------------------------------------------------------------
  // Download name

  /** `filename.replace(/\.[^.]+$/, '')`, or 'transkription' without a filename: a final
      dot followed by at least one character, none of them a dot, is removed. */
  function BaseName(filename: Option<string>): (r: string)
    ensures filename.None? || filename.value == [] ==> r == "transkription"
    ensures filename.Some? && filename.value != [] ==>
      var f := filename.value;
      StartsWith(f, r) &&
      (r == f || (|f| - |r| >= 2 && f[|r|] == '.' && '.' !in f[|r| + 1..]))
  {
    if filename.None? || filename.value == [] then "transkription"
    else
      var f := filename.value;
      match LastIndexOf(f, '.')
      case None => f
      case Some(d) =>
        if d < |f| - 1 then LastIndexOfAfter(f, '.'); DropExtension(f, d) else f
  }

  function DropExtension(f: string, d: nat): (r: string)
    requires d < |f| - 1 && f[d] == '.' && forall j :: d < j < |f| ==> f[j] != '.'
    ensures r == f[..d] && StartsWith(f, r) && '.' !in f[d + 1..]
  {
    var t := f[d + 1..];
    forall j | 0 <= j < |t| ensures t[j] != '.' {
      assert t[j] == f[d + 1 + j];
    }
    f[..d]
  }

  /** The TXT download name. */
  function TxtName(filename: Option<string>): (r: string)
    ensures EndsWith(r, ".txt")
  {
    var b := BaseName(filename);
    assert (b + ".txt")[|b|..] == ".txt";
    b + ".txt"
  }

  /** The extension after the last dot is removed, whatever the stem. */
  lemma BaseNameOf(stem: string, ext: string)
    requires ext != [] && '.' !in ext
    ensures BaseName(Some(stem + "." + ext)) == stem
  {
    var f := stem + "." + ext;
    forall j | |stem| < j < |f| ensures f[j] != '.' {
      assert f[j] == ext[j - |stem| - 1];
    }
    LastIndexOfIs(f, |stem|, '.');
    assert f[..|stem|] == stem;
  }

  /** A name without a dot, or ending in a dot, is kept whole. */
  lemma BaseNameKeeps(f: string)
    requires f != [] && ('.' !in f || f[|f| - 1] == '.')
    ensures BaseName(Some(f)) == f
  {
    if '.' !in f {
      LastIndexOfAbsent(f, '.');
    } else {
      LastIndexOfIs(f, |f| - 1, '.');
    }
  }

  /** A dot-file such as ".bashrc" has the empty base name, so its download is ".txt". */
  lemma DotFileDownload(ext: string)
    requires ext != [] && '.' !in ext
    ensures TxtName(Some("." + ext)) == ".txt"
  {
    BaseNameOf("", ext);
    assert "" + "." + ext == "." + ext;
  }

  // ---------------------------------------------------------------------
  // HTML escaping

  /** Every `c` in `s` replaced by `rep`, character by character. */
  function Subst(s: string, c: char, rep: string): (r: string)
    decreases |s|
  {
    if s == [] then [] else (if s[0] == c then rep else [s[0]]) + Subst(s[1..], c, rep)
  }

  /** Replacing a one-character pattern is replacing that character. */
  lemma {:induction false} ReplaceAllChar(s: string, c: char, rep: string)
    ensures ReplaceAll(s, [c], rep) == Subst(s, c, rep)
    decreases |s|
  {
    if s != [] {
      ReplaceAllChar(s[1..], c, rep);
      assert s[..1] == [s[0]];
    }
  }

  lemma {:induction false} SubstRemoves(s: string, c: char, rep: string, d: char)
    requires d !in rep && (d == c || d !in s)
    ensures d !in Subst(s, c, rep)
    decreases |s|
  {
    if s != [] {
      SubstRemoves(s[1..], c, rep, d);
    }
  }

  /** The line with '&', then '<', then '>' replaced by their entities. */
  function Escape(line: string): (r: string)
  {
    ReplaceAll(ReplaceAll(ReplaceAll(line, "&", "&amp;"), "<", "&lt;"), ">", "&gt;")
  }

  /** An escaped line has no raw '<' or '>'. */
  lemma EscapedHasNoTags(line: string)
    ensures '<' !in Escape(line) && '>' !in Escape(line)
  {
    var a := ReplaceAll(line, "&", "&amp;");
    ReplaceAllChar(line, '&', "&amp;");
    ReplaceAllChar(a, '<', "&lt;");
    var b := Subst(a, '<', "&lt;");
    ReplaceAllChar(b, '>', "&gt;");
    SubstRemoves(a, '<', "&lt;", '<');
    SubstRemoves(b, '>', "&gt;", '<');
    SubstRemoves(b, '>', "&gt;", '>');
  }

  /** The entity of one character. */
  function EscapeChar(c: char): string
  {
    if c == '&' then "&amp;" else if c == '<' then "&lt;" else if c == '>' then "&gt;" else [c]
  }

  /** Decoding the three entities, the partner of `Escape`. */
  function Unescape(t: string): string
    decreases |t|
  {
    if t == [] then []
    else if StartsWith(t, "&amp;") then "&" + Unescape(t[5..])
    else if StartsWith(t, "&lt;") then "<" + Unescape(t[4..])
    else if StartsWith(t, "&gt;") then ">" + Unescape(t[4..])
    else [t[0]] + Unescape(t[1..])
  }

  lemma {:induction false} SubstAppend(a: string, b: string, c: char, rep: string)
    ensures Subst(a + b, c, rep) == Subst(a, c, rep) + Subst(b, c, rep)
    decreases |a|
  {
    if a != [] {
      SubstAppend(a[1..], b, c, rep);
      assert (a + b)[1..] == a[1..] + b;
      assert (a + b)[0] == a[0] && a + b != [];
    } else {
      assert a + b == b;
    }
  }

  lemma SubstAbsent(s: string, c: char, rep: string)
    requires c !in s
    ensures Subst(s, c, rep) == s
    decreases |s|
  {
    if s != [] {
      SubstAbsent(s[1..], c, rep);
    }
  }

  /** The three passes, one character at a time. */
  function Passes(s: string): string
  {
    Subst(Subst(Subst(s, '&', "&amp;"), '<', "&lt;"), '>', "&gt;")
  }

  lemma SubstOne(x: char, c: char, rep: string)
    ensures Subst([x], c, rep) == if x == c then rep else [x]
  {
    assert [x][1..] == [];
  }

  lemma PassesChar(c: char)
    ensures Passes([c]) == EscapeChar(c)
  {
    SubstOne(c, '&', "&amp;");
    if c == '&' {
      AmpPasses();
    } else if c == '<' {
      SubstOne(c, '<', "&lt;");
      LtPasses();
    } else {
      SubstOne(c, '<', "&lt;");
      SubstOne(c, '>', "&gt;");
    }
  }

  lemma AmpPasses()
    ensures Subst(Subst("&amp;", '<', "&lt;"), '>', "&gt;") == "&amp;"
  {
    AmpFree('<', "&lt;");
    AmpFree('>', "&gt;");
  }

  lemma AmpFree(c: char, rep: string)
    requires c == '<' || c == '>'
    ensures Subst("&amp;", c, rep) == "&amp;"
  {
    assert c !in "&amp;";
    SubstAbsent("&amp;", c, rep);
  }

  lemma LtPasses()
    ensures Subst("&lt;", '>', "&gt;") == "&lt;"
  {
    SubstAbsent("&lt;", '>', "&gt;");
  }

  lemma PassesCons(c: char, rest: string)
    ensures Passes([c] + rest) == EscapeChar(c) + Passes(rest)
  {
    SubstAppend([c], rest, '&', "&amp;");
    var a1, a2 := Subst([c], '&', "&amp;"), Subst(rest, '&', "&amp;");
    SubstAppend(a1, a2, '<', "&lt;");
    var b1, b2 := Subst(a1, '<', "&lt;"), Subst(a2, '<', "&lt;");
    SubstAppend(b1, b2, '>', "&gt;");
    PassesChar(c);
  }

  lemma UnescapeCons(c: char, rest: string)
    ensures Unescape(EscapeChar(c) + rest) == [c] + Unescape(rest)
  {
    if c == '&' {
      UnescapeAmp(rest);
    } else if c == '<' {
      UnescapeLt(rest);
    } else if c == '>' {
      UnescapeGt(rest);
    } else {
      UnescapePlain(c, rest);
    }
  }

  lemma UnescapeAmp(rest: string)
    ensures Unescape("&amp;" + rest) == "&" + Unescape(rest)
  {
    var t := "&amp;" + rest;
    assert t[..5] == "&amp;" && t[5..] == rest;
  }

  lemma UnescapeLt(rest: string)
    ensures Unescape("&lt;" + rest) == "<" + Unescape(rest)
  {
    var t := "&lt;" + rest;
    assert t[..4] == "&lt;" && t[4..] == rest;
    assert !StartsWith(t, "&amp;") by { assert t[1] == 'l'; }
  }

  lemma UnescapeGt(rest: string)
    ensures Unescape("&gt;" + rest) == ">" + Unescape(rest)
  {
    var t := "&gt;" + rest;
    assert t[..4] == "&gt;" && t[4..] == rest;
    assert t[1] == 'g';
    assert !StartsWith(t, "&amp;") && !StartsWith(t, "&lt;");
  }

  lemma UnescapePlain(c: char, rest: string)
    requires c != '&'
    ensures Unescape([c] + rest) == [c] + Unescape(rest)
  {
    var t := [c] + rest;
    assert t[0] == c && t[1..] == rest;
  }

  /** Decoding an escaped line gives the line back: replacing '&' first is what keeps
      the entities of '<' and '>' from being escaped a second time. */
  lemma {:induction false} EscapeRoundTrip(line: string)
    ensures Unescape(Escape(line)) == line
    decreases |line|
  {
    PassesAreEscape(line);
    PassesRoundTrip(line);
  }

  lemma PassesAreEscape(line: string)
    ensures Escape(line) == Passes(line)
  {
    var a := ReplaceAll(line, "&", "&amp;");
    ReplaceAllChar(line, '&', "&amp;");
    ReplaceAllChar(a, '<', "&lt;");
    ReplaceAllChar(Subst(a, '<', "&lt;"), '>', "&gt;");
  }

  lemma {:induction false} PassesRoundTrip(line: string)
    ensures Unescape(Passes(line)) == line
    decreases |line|
  {
    if line != [] {
      assert line == [line[0]] + line[1..];
      PassesCons(line[0], line[1..]);
      PassesRoundTrip(line[1..]);
      UnescapeCons(line[0], Passes(line[1..]));
    }
  }

  // ---------------------------------------------------------------------
  // PDF lines

  /** The HTML element a line of the export becomes. */
  datatype Element = Separator | Paragraph(escaped: string) | EmptyParagraph

  /** `/^-{10,}/`: ten dashes at the start. */
  predicate DashRule(line: string)
  {
    |line| >= 10 && forall k :: 0 <= k < 10 ==> line[k] == '-'
  }

  /** `/^\s{0,4}\S/`: a character that is not white space after at most four white
      space characters. */
  predicate NearLeftText(line: string)
  {
    exists k :: 0 <= k <= 4 && k < |line| && AllWhite(line[..k], JsSpace) && !White(JsSpace, line[k])
  }

  /** The element of one line: a rule, a paragraph with the escaped text, or an empty
      paragraph. */
  function LineElement(line: string): (r: Element)
    ensures r.Separator? <==> DashRule(line)
    ensures r.Paragraph? <==> !DashRule(line) && NearLeftText(line) && Trim(line) != []
    ensures r.Paragraph? ==> r.escaped == Escape(line)
  {
    if DashRule(line) then Separator
    else if NearLeftText(line) && Trim(line) != [] then Paragraph(Escape(line))
    else EmptyParagraph
  }

  /** The body of the print window: one element per line, in order. */
  function PdfElements(text: string): (r: seq<Element>)
    ensures |r| == |Split(text, '\n')|
    ensures forall k :: 0 <= k < |r| ==> r[k] == LineElement(Split(text, '\n')[k])
  {
    var lines := Split(text, '\n');
    seq(|lines|, k requires 0 <= k < |lines| => LineElement(lines[k]))
  }

  /** A line with text near its left edge is not blank, so the `trim()` test adds
      nothing to the regular expression. */
  lemma NearLeftNotBlank(line: string)
    requires NearLeftText(line)
    ensures Trim(line) != []
  {
    var k :| 0 <= k <= 4 && k < |line| && AllWhite(line[..k], JsSpace) && !White(JsSpace, line[k]);
    TrimStartSpec(line, JsSpace);
    var t := TrimStart(line, JsSpace);
    assert t != [];
    TrimEndKeeps(t);
  }

  lemma TrimEndKeeps(t: string)
    requires t != [] && !White(JsSpace, t[0])
    ensures TrimEnd(t, JsSpace) != []
  {
    TrimEndSpec(t, JsSpace);
  }

  /** A continuation line (twelve spaces, then text) becomes an empty paragraph: its
      text is not exported to PDF. */
  lemma ContinuationDropped(text: string)
    ensures LineElement("            " + text) == EmptyParagraph
  {
    var line := "            " + text;
    assert line[..5] == "     ";
    IndentedNotNearLeft(line);
  }

  /** Five leading spaces leave no text near the left edge. */
  lemma IndentedNotNearLeft(line: string)
    requires |line| >= 5 && line[..5] == "     "
    ensures !NearLeftText(line) && !DashRule(line)
  {
    forall k | 0 <= k <= 4 ensures White(JsSpace, line[k]) {
      assert line[k] == line[..5][k];
    }
    assert line[0] == ' ';
  }
}
