// server/utils/generateShortId.js: six-character public ids over [0-9a-z]; ids of users
// start with a digit, ids of transcriptions with a letter. `Math.random` is replaced by
// the indices it would have produced.

module ShortId {
  import opened StrUtil

  /** The id alphabet: the ten digits, then the 26 lower-case letters. */
  const Alphabet := "0123456789abcdefghijklmnopqrstuvwxyz"

  predicate IdChar(c: char) { IsDigit(c) || IsLowerAscii(c) }

  /** `Math.floor(Math.random() * n)`: an index below `n`. */
  predicate Draws(picks: seq<nat>, n: nat)
  {
    forall k :: 0 <= k < |picks| ==> picks[k] < n
  }

  /** `isValidIdFormat`: `/^[0-9a-z]{6}$/`, exactly six characters of the id alphabet. */
  predicate IsValidIdFormat(id: string): (r: bool)
    ensures r <==> |id| == 6 && forall k :: 0 <= k < 6 ==> id[k] in Alphabet
  {
    AlphabetMembers();
    |id| == 6 && forall k :: 0 <= k < 6 ==> IdChar(id[k])
  }

  /** `isUserIdPattern`: six characters, the first one of the ten digits of the alphabet;
      the rest are not looked at. */
  predicate IsUserIdPattern(id: string): (r: bool)
    ensures r <==> |id| == 6 && id[0] in Alphabet[..10]
  {
    AlphabetMembers();
    |id| == 6 && IsDigit(id[0])
  }

  /** `isMp3IdPattern`: six characters, the first one of the 26 letters of the alphabet;
      the rest are not looked at. */
  predicate IsMp3IdPattern(id: string): (r: bool)
    ensures r <==> |id| == 6 && id[0] in Alphabet[10..]
  {
    AlphabetMembers();
    |id| == 6 && IsLowerAscii(id[0])
  }

  /** The alphabet holds exactly the id characters, its first ten entries the digits and
      the rest the letters. */
  lemma AlphabetMembers()
    ensures forall c :: c in Alphabet <==> IdChar(c)
    ensures forall c :: c in Alphabet[..10] <==> IsDigit(c)
    ensures forall c :: c in Alphabet[10..] <==> IsLowerAscii(c)
  {
    forall c ensures c in Alphabet <==> IdChar(c) {
      if c in Alphabet { ListedIdChar(c); } else if IdChar(c) { IdCharListed(c); }
    }
    forall c ensures c in Alphabet[..10] <==> IsDigit(c) {
      if c in Alphabet[..10] { ListedDigit(c); } else if IsDigit(c) { DigitListed(c); }
    }
    forall c ensures c in Alphabet[10..] <==> IsLowerAscii(c) {
      if c in Alphabet[10..] { ListedLetter(c); } else if IsLowerAscii(c) { LetterListed(c); }
    }
  }

  lemma ListedIdChar(c: char)
    requires c in Alphabet
    ensures IdChar(c)
  {
    var i :| 0 <= i < |Alphabet| && Alphabet[i] == c;
    AlphabetChar(i);
  }

  lemma ListedDigit(c: char)
    requires c in Alphabet[..10]
    ensures IsDigit(c)
  {
    var i :| 0 <= i < 10 && Alphabet[..10][i] == c;
    AlphabetChar(i);
  }

  lemma ListedLetter(c: char)
    requires c in Alphabet[10..]
    ensures IsLowerAscii(c)
  {
    var i :| 0 <= i < 26 && Alphabet[10..][i] == c;
    AlphabetChar(i + 10);
  }

  lemma IdCharListed(c: char)
    requires IdChar(c)
    ensures c in Alphabet
  {
    if IsDigit(c) { DigitListed(c); } else { LetterListed(c); }
    assert Alphabet == Alphabet[..10] + Alphabet[10..];
  }

  lemma DigitListed(c: char)
    requires IsDigit(c)
    ensures c in Alphabet[..10]
  {
    assert Alphabet[..10] == "0123456789";
    assert "0123456789"[c as int - '0' as int] == c;
  }

  lemma LetterListed(c: char)
    requires IsLowerAscii(c)
    ensures c in Alphabet[10..]
  {
    assert Alphabet[10..] == "abcdefghijklmnopqrstuvwxyz";
    assert "abcdefghijklmnopqrstuvwxyz"[c as int - 'a' as int] == c;
  }

  /** The character at a drawn index is an id character. */
  lemma AlphabetChar(i: nat)
    requires i < |Alphabet|
    ensures IdChar(Alphabet[i])
    ensures i < 10 <==> IsDigit(Alphabet[i])
  {
  }

  /** `generateShortId(prefix)`: the prefix when it is truthy, otherwise one drawn
      character, then five drawn characters. `first` is used only without a prefix. */
  method GenerateShortId(prefix: Option<string>, first: nat, rest: seq<nat>) returns (id: string)
    requires first < |Alphabet| && |rest| == 5 && Draws(rest, |Alphabet|)
    ensures var head := if prefix.Some? && prefix.value != "" then prefix.value else [Alphabet[first]];
      |id| == |head| + 5 && id[..|head|] == head
      && forall k :: 0 <= k < 5 ==> id[|head| + k] == Alphabet[rest[k]]
  {
    if prefix.Some? && prefix.value != "" {
      id := prefix.value;
    } else {
      id := [Alphabet[first]];
    }
    ghost var head := id;
    for i := 1 to 6
      invariant |id| == |head| + i - 1 && id[..|head|] == head
      invariant forall k :: 0 <= k < i - 1 ==> id[|head| + k] == Alphabet[rest[k]]
    {
      id := id + [Alphabet[rest[i - 1]]];
    }
  }

  /** `generateUserId`: a drawn digit as the prefix. */
  method GenerateUserId(pick: nat, rest: seq<nat>) returns (id: string)
    requires pick < 10 && |rest| == 5 && Draws(rest, |Alphabet|)
    ensures IsValidIdFormat(id) && IsUserIdPattern(id) && !IsMp3IdPattern(id)
  {
    var prefixes := ["0", "1", "2", "3", "4", "5", "6", "7", "8", "9"];
    id := GenerateShortId(Some(prefixes[pick]), 0, rest);
    GeneratedValid(id, pick, rest);
  }

  /** `generateMp3Id`: a drawn letter as the prefix. */
  method GenerateMp3Id(pick: nat, rest: seq<nat>) returns (id: string)
    requires pick < 26 && |rest| == 5 && Draws(rest, |Alphabet|)
    ensures IsValidIdFormat(id) && IsMp3IdPattern(id) && !IsUserIdPattern(id)
  {
    var prefixes := ["a", "b", "c", "d", "e", "f", "g", "h", "i", "j", "k", "l", "m",
                     "n", "o", "p", "q", "r", "s", "t", "u", "v", "w", "x", "y", "z"];
    assert prefixes[pick] == [Alphabet[pick + 10]];
    id := GenerateShortId(Some(prefixes[pick]), 0, rest);
    GeneratedValid(id, pick + 10, rest);
  }

  /** An id made of a one-character alphabet prefix and five drawn characters is valid;
      it is a user id exactly when the prefix is a digit. */
  lemma GeneratedValid(id: string, p: nat, rest: seq<nat>)
    requires p < |Alphabet| && |rest| == 5 && Draws(rest, |Alphabet|)
    requires |id| == 6 && id[..1] == [Alphabet[p]]
    requires forall k :: 0 <= k < 5 ==> id[1 + k] == Alphabet[rest[k]]
    ensures IsValidIdFormat(id)
    ensures IsUserIdPattern(id) <==> p < 10
    ensures IsMp3IdPattern(id) <==> p >= 10
  {
    assert id[0] == id[..1][0];
    AlphabetChar(p);
    forall k | 1 <= k < 6 ensures IdChar(id[k]) {
      AlphabetChar(rest[k - 1]);
      assert id[1 + (k - 1)] == Alphabet[rest[k - 1]];
    }
  }

  /** A prefix of any length is kept whole: the id is six characters long only for a
      one-character prefix. */
  lemma PrefixLength(prefix: string, id: string)
    requires prefix != [] && |id| == |prefix| + 5 && id[..|prefix|] == prefix
    ensures |id| == 6 <==> |prefix| == 1
    ensures StartsWith(id, prefix)
  {
  }

  /** Every id of valid format is of exactly one of the two kinds. */
  lemma ExactlyOneKind(id: string)
    requires IsValidIdFormat(id)
    ensures IsUserIdPattern(id) != IsMp3IdPattern(id)
  {
    assert IdChar(id[0]);
  }

  /** The pattern tests look only at the first character: "1ABCDE" is a user id pattern
      without being of valid format. */
  lemma PatternIgnoresRest()
    ensures IsUserIdPattern("1ABCDE") && !IsValidIdFormat("1ABCDE")
  {
    assert !IdChar("1ABCDE"[1]);
  }
}
