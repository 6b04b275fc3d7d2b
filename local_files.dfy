// server/routes/local-files.js: the listing of the local audio directory by type,
// newest first, and the counts of /info.

module LocalFiles {
  import opened StrUtil

  /** A directory entry: its name and its modification time in milliseconds. */
  datatype Entry = Entry(filename: string, modified: int)

  datatype ListReply =
    | DirMissing(error: string)
    | BadType(error: string)
    | Listed(fileType: string, count: nat, files: seq<Entry>)

  datatype InfoReply =
    | Absent
    | Info(totalFiles: nat, mp3Files: nat, txtFiles: nat)

  predicate IsMp3Name(name: string) { EndsWith(Lower(name), ".mp3") }

  /** The txt listing: ".txt" names that are not summaries ("_s.txt"). */
  predicate IsTranscriptName(name: string)
  {
    EndsWith(Lower(name), ".txt") && !EndsWith(Lower(name), "_s.txt")
  }

  /** The entries, in directory order, whose name satisfies the filter of `fileType`. */
  function Filtered(entries: seq<Entry>, mp3: bool): (r: seq<Entry>)
    ensures |r| <= |entries|
    ensures forall k :: 0 <= k < |r| ==>
      if mp3 then IsMp3Name(r[k].filename) else IsTranscriptName(r[k].filename)
    ensures multiset(r) <= multiset(entries)
  {
    if entries == [] then []
    else
      var rest := Filtered(entries[..|entries| - 1], mp3);
      var e := entries[|entries| - 1];
      assert entries == entries[..|entries| - 1] + [e];
      if (if mp3 then IsMp3Name(e.filename) else IsTranscriptName(e.filename)) then rest + [e] else rest
  }

  /** Newest first: no entry is older than the one after it. */
  predicate NewestFirst(s: seq<Entry>)
  {
    forall i, j :: 0 <= i < j < |s| ==> s[i].modified >= s[j].modified
  }

  /** `e` put in front of the first entry that is strictly older, after all entries of
      the same age or newer: the place a stable sort by `b.modified - a.modified` gives
      an entry that comes after all of `sorted` in the input. */
  function Insert(sorted: seq<Entry>, e: Entry): seq<Entry>
    decreases |sorted|
  {
    if sorted == [] then [e]
    else if sorted[0].modified >= e.modified then [sorted[0]] + Insert(sorted[1..], e)
    else [e] + sorted
  }

  /** Inserting adds exactly `e`. */
  lemma {:induction false} InsertMultiset(sorted: seq<Entry>, e: Entry)
    ensures multiset(Insert(sorted, e)) == multiset(sorted) + multiset{e}
    decreases |sorted|
  {
    if sorted != [] {
      assert sorted == [sorted[0]] + sorted[1..];
      InsertMultiset(sorted[1..], e);
    }
  }

  /** Every entry after inserting is `e` or was already there. */
  lemma {:induction false} InsertMembers(sorted: seq<Entry>, e: Entry, x: Entry)
    requires x in Insert(sorted, e)
    ensures x == e || x in sorted
    decreases |sorted|
  {
    if sorted != [] && sorted[0].modified >= e.modified && x != sorted[0] {
      InsertMembers(sorted[1..], e, x);
    }
  }

  /** The newest entry of a sorted list is at least as new as any of its entries. */
  lemma HeadNewest(sorted: seq<Entry>, x: Entry)
    requires NewestFirst(sorted) && x in sorted
    ensures sorted[0].modified >= x.modified
  {
    var j :| 0 <= j < |sorted| && sorted[j] == x;
  }

  /** Inserting keeps the list newest first. */
  lemma {:induction false} InsertSorted(sorted: seq<Entry>, e: Entry)
    requires NewestFirst(sorted)
    ensures NewestFirst(Insert(sorted, e))
    decreases |sorted|
  {
    if sorted == [] {
    } else if sorted[0].modified >= e.modified {
      var rest := Insert(sorted[1..], e);
      assert NewestFirst(sorted[1..]);
      InsertSorted(sorted[1..], e);
      forall k | 0 <= k < |rest| ensures sorted[0].modified >= rest[k].modified {
        InsertMembers(sorted[1..], e, rest[k]);
        if rest[k] != e {
          HeadNewest(sorted, rest[k]);
        }
      }
      InsertFront(sorted[0], rest);
    } else {
      InsertFront(e, sorted);
    }
  }

  /** An entry at least as new as every entry of a sorted list may go in front of it. */
  lemma InsertFront(x: Entry, rest: seq<Entry>)
    requires NewestFirst(rest)
    requires forall k :: 0 <= k < |rest| ==> x.modified >= rest[k].modified
    ensures NewestFirst([x] + rest)
  {
    var s := [x] + rest;
    forall i, j | 0 <= i < j < |s| ensures s[i].modified >= s[j].modified {
      assert s[j] == rest[j - 1];
      if i > 0 { assert s[i] == rest[i - 1]; }
    }
  }

  /** `filesWithDetails.sort((a, b) => b.modified - a.modified)`. */
  function SortNewestFirst(s: seq<Entry>): (r: seq<Entry>)
    ensures NewestFirst(r) && multiset(r) == multiset(s)
  {
    if s == [] then []
    else
      assert s == s[..|s| - 1] + [s[|s| - 1]];
      InsertSorted(SortNewestFirst(s[..|s| - 1]), s[|s| - 1]);
      InsertMultiset(SortNewestFirst(s[..|s| - 1]), s[|s| - 1]);
      Insert(SortNewestFirst(s[..|s| - 1]), s[|s| - 1])
  }

  /** GET /api/local-files/list?type=... */
  function List(fileType: Option<string>, dirExists: bool, entries: seq<Entry>): (r: ListReply)
    ensures !dirExists <==> r.DirMissing?
    ensures r.BadType? <==> dirExists && fileType.Some? && fileType.value != ""
                            && fileType.value != "mp3" && fileType.value != "txt"
    ensures r.Listed? ==> r.count == |r.files| && NewestFirst(r.files)
    ensures r.Listed? ==> r.fileType == "mp3" || r.fileType == "txt"
    ensures r.Listed? ==> multiset(r.files) == multiset(Filtered(entries, r.fileType == "mp3"))
  {
    var t := if fileType.None? || fileType.value == "" then "mp3" else fileType.value;
    if !dirExists then
      DirMissing("Verzeichnis nicht gefunden: D:\\Projekte_KI\\pyenv_1_transcode_durchgabe\\audio")
    else if t != "mp3" && t != "txt" then
      BadType("Ung\U{00FC}ltiger Typ. Verwende type=mp3 oder type=txt")
    else
      var files := SortNewestFirst(Filtered(entries, t == "mp3"));
      Listed(t, |files|, files)
  }

  /** The names in directory order that end in `ext`, in any case. */
  function CountEnding(names: seq<string>, ext: string): (r: nat)
    ensures r <= |names|
  {
    if names == [] then 0
    else CountEnding(names[..|names| - 1], ext) + (if EndsWith(Lower(names[|names| - 1]), ext) then 1 else 0)
  }

  /** GET /api/local-files/info. */
  function DirInfo(dirExists: bool, names: seq<string>): (r: InfoReply)
    ensures r.Info? <==> dirExists
    ensures r.Info? ==> r.totalFiles == |names| && r.mp3Files + r.txtFiles <= 2 * |names|
  {
    if !dirExists then Absent
    else Info(|names|, CountEnding(names, ".mp3"), CountEnding(names, ".txt"))
  }

  function Names(entries: seq<Entry>): (r: seq<string>)
    ensures |r| == |entries| && forall k :: 0 <= k < |r| ==> r[k] == entries[k].filename
  {
    seq(|entries|, k requires 0 <= k < |entries| => entries[k].filename)
  }

  /** Exactly the entries with the type's names are listed, each once per occurrence in
      the directory; no other entry is. */
  lemma {:induction false} ListedExactly(entries: seq<Entry>, mp3: bool, e: Entry)
    ensures multiset(Filtered(entries, mp3))[e]
      == if (if mp3 then IsMp3Name(e.filename) else IsTranscriptName(e.filename))
         then multiset(entries)[e] else 0
    decreases |entries|
  {
    if entries != [] {
      var last := entries[|entries| - 1];
      assert entries == entries[..|entries| - 1] + [last];
      ListedExactly(entries[..|entries| - 1], mp3, e);
    }
  }

  /** The mp3 listing counts what /info counts as MP3 files. */
  lemma {:induction false} Mp3CountAgrees(entries: seq<Entry>)
    ensures |Filtered(entries, true)| == CountEnding(Names(entries), ".mp3")
    decreases |entries|
  {
    if entries != [] {
      var front := entries[..|entries| - 1];
      Mp3CountAgrees(front);
      assert Names(entries)[..|entries| - 1] == Names(front);
    }
  }

  /** /info counts every ".txt" name, summaries included: it reports as many text files
      as /list shows plus the number of summaries. */
  lemma {:induction false} TxtCountIncludesSummaries(entries: seq<Entry>)
    ensures CountEnding(Names(entries), ".txt")
      == |Filtered(entries, false)| + CountEnding(Names(entries), "_s.txt")
    decreases |entries|
  {
    if entries != [] {
      var front := entries[..|entries| - 1];
      TxtCountIncludesSummaries(front);
      assert Names(entries)[..|entries| - 1] == Names(front);
      SummaryIsTxt(Lower(entries[|entries| - 1].filename));
    }
  }

  /** A name ending in "_s.txt" ends in ".txt". */
  lemma SummaryIsTxt(s: string)
    ensures EndsWith(s, "_s.txt") ==> EndsWith(s, ".txt")
  {
    if EndsWith(s, "_s.txt") {
      assert s[|s| - 4..] == s[|s| - 6..][2..];
    }
  }

  /** A summary such as "Talk_s.txt" is counted by /info but not listed. */
  lemma SummaryCountedNotListed(name: string, modified: int)
    requires EndsWith(Lower(name), "_s.txt")
    ensures DirInfo(true, [name]).txtFiles == 1
    ensures Filtered([Entry(name, modified)], false) == []
  {
    SummaryIsTxt(Lower(name));
    assert [name][..0] == [] && [Entry(name, modified)][..0] == [];
  }
}
