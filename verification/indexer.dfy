/**
 * Matching and indexing rules (src/game/indexer/mod.rs): whether the input is still on
 * track for the current unit, where a unit starts in the flattened passage, and which
 * character slot the player is attempting.
 *
 * Lengths are counted in characters. The source compares byte lengths in three places; see
 * the README for where that differs.
 */
module Indexer {
  import opened Split
  import opened WordProcessing

  function Min(a: nat, b: nat): nat
  {
    if a <= b then a else b
  }

  /** `check_like_word`: the input is error-free for `word` exactly when it is a prefix of
      it (case-sensitive, character by character). */
  function CheckLikeWord(word: string, input: string): (like: bool)
    ensures like <==> input <= word
    ensures input == [] ==> like
    ensures |input| > |word| ==> !like
  {
    if input == [] then true
    else if |input| > |word| then false
    else CheckWord(word[..|input|], input)
  }

  /** `check_word`: plain equality. */
  function CheckWord(word: string, input: string): (same: bool)
    ensures same <==> |input| == |word| && forall i :: 0 <= i < |word| ==> word[i] == input[i]
  {
    word == input
  }

  /** Characters between two units in the flattened passage: one space in Latin mode,
      nothing in NonLatin mode. */
  function Separator(mode: GameMode): nat
  {
    if mode == Latin then 1 else 0
  }

  /** Offset of unit `k` in the flattened passage: the units before it, each followed by
      its separator. */
  function StartingIdx(mode: GameMode, words: seq<string>, k: nat): nat
    requires k <= |words|
  {
    if k == 0 then 0 else StartingIdx(mode, words, k - 1) + |words[k - 1]| + Separator(mode)
  }

  /** `get_starting_idx`: sums the character counts (plus separators) of the first `k`
      units; `take(k)` stops at the end of the passage. */
  method GetStartingIdx(mode: GameMode, words: seq<string>, k: nat) returns (offset: nat)
    ensures offset == StartingIdx(mode, words, Min(k, |words|))
  {
    offset := 0;
    var i := 0;
    while i < Min(k, |words|)
      invariant i <= Min(k, |words|)
      invariant offset == StartingIdx(mode, words, i)
    {
      offset := offset + |words[i]| + Separator(mode);
      i := i + 1;
    }
  }

  /** Splitting the joined units between two non-empty groups leaves one space. */
  lemma {:induction false} JoinSpaceAppend(a: seq<string>, b: seq<string>)
    requires a != [] && b != []
    ensures JoinSpace(a + b) == JoinSpace(a) + " " + JoinSpace(b)
  {
    if |a| == 1 {
      assert (a + b)[1..] == b;
    } else {
      JoinSpaceAppend(a[1..], b);
      assert (a + b)[1..] == a[1..] + b;
      AppendAssoc(a[0], " ", JoinSpace(a[1..]), " " + JoinSpace(b));
      AppendAssoc(a[0], " ", JoinSpace(a[1..]) + " ", JoinSpace(b));
      assert JoinSpace(a[1..]) + " " + JoinSpace(b) == (JoinSpace(a[1..]) + " ") + JoinSpace(b);
    }
  }

  /** The offset of a Latin unit is the length of the joined units before it plus the
      space after them. */
  lemma {:induction false} LatinOffset(words: seq<string>, k: nat)
    requires 1 <= k <= |words|
    ensures StartingIdx(Latin, words, k) == |JoinSpace(words[..k])| + 1
  {
    if k > 1 {
      LatinOffset(words, k - 1);
      JoinSpaceAppend(words[..k - 1], [words[k - 1]]);
      assert words[..k] == words[..k - 1] + [words[k - 1]];
    }
  }

  /** The offset of a NonLatin unit is the length of the units before it. */
  lemma {:induction false} NonLatinOffset(words: seq<string>, k: nat)
    requires k <= |words|
    ensures StartingIdx(NonLatin, words, k) == |Concat(words[..k])|
  {
    if k > 0 {
      NonLatinOffset(words, k - 1);
      ConcatAppend(words[..k - 1], [words[k - 1]]);
      assert words[..k] == words[..k - 1] + [words[k - 1]];
      assert Concat([words[k - 1]]) == words[k - 1] + [];
    }
  }

  lemma JoinSpaceHead(words: seq<string>)
    requires words != []
    ensures words[0] <= JoinSpace(words)
  {
    if |words| > 1 {
      assert JoinSpace(words) == words[0] + (" " + JoinSpace(words[1..]));
    }
  }

  /** The offset of unit `k` points at that unit inside the passage the units were split
      from. */
  lemma StartingIdxLocates(mode: GameMode, words: seq<string>, k: nat)
    requires k < |words|
    ensures var passage := JoinToPassage(mode == NonLatin, words);
            var at := StartingIdx(mode, words, k);
            at + |words[k]| <= |passage| && passage[at..at + |words[k]|] == words[k]
  {
    if mode == NonLatin {
      NonLatinLocates(words, k);
    } else if k == 0 {
      JoinSpaceHead(words);
      var rest := JoinSpace(words)[|words[0]|..];
      assert JoinSpace(words) == words[0] + rest;
      SliceAt([], words[0], rest);
    } else {
      LatinLocates(words, k);
    }
  }

  /** The stretch of `p + (w + r)` right after `p` is `w`. */
  lemma SliceAt(p: string, w: string, r: string)
    ensures |p| + |w| <= |p + (w + r)| && (p + (w + r))[|p|..|p| + |w|] == w
  {
  }

  lemma NonLatinLocates(words: seq<string>, k: nat)
    requires k < |words|
    ensures var at := StartingIdx(NonLatin, words, k);
            at + |words[k]| <= |Concat(words)| && Concat(words)[at..at + |words[k]|] == words[k]
  {
    NonLatinOffset(words, k);
    ConcatAround(words, k);
    SliceAt(Concat(words[..k]), words[k], Concat(words[k + 1..]));
  }

  /** The concatenated units, cut around unit `k`. */
  lemma ConcatAround(words: seq<string>, k: nat)
    requires k < |words|
    ensures Concat(words) == Concat(words[..k]) + (words[k] + Concat(words[k + 1..]))
  {
    TakeDrop(words, k);
    ConcatAppend(words[..k], words[k..]);
    DropCons(words, k);
  }

  lemma LatinLocates(words: seq<string>, k: nat)
    requires 0 < k < |words|
    ensures var at := StartingIdx(Latin, words, k);
            at + |words[k]| <= |JoinSpace(words)| && JoinSpace(words)[at..at + |words[k]|] == words[k]
  {
    LatinOffset(words, k);
    var rest := JoinAround(words, k);
    SliceAt(JoinSpace(words[..k]) + " ", words[k], rest);
  }

  /** The joined units, cut around unit `k`: the units before it and a space, then the
      unit, then whatever follows it. */
  lemma JoinAround(words: seq<string>, k: nat) returns (rest: string)
    requires 0 < k < |words|
    ensures JoinSpace(words) == (JoinSpace(words[..k]) + " ") + (words[k] + rest)
  {
    TakeDrop(words, k);
    JoinSpaceAppend(words[..k], words[k..]);
    DropCons(words, k);
    JoinSpaceHead(words[k..]);
    var tail := JoinSpace(words[k..]);
    rest := tail[|words[k]|..];
    assert tail == words[k] + rest;
  }

  /** The last unit ends exactly where the passage ends. */
  lemma LastUnitEndsPassage(mode: GameMode, words: seq<string>)
    requires words != []
    ensures mode == Latin ==>
              StartingIdx(mode, words, |words| - 1) + |words[|words| - 1]| == |JoinSpace(words)|
    ensures mode == NonLatin ==> StartingIdx(mode, words, |words|) == |Concat(words)|
  {
    var k := |words| - 1;
    if mode == NonLatin {
      NonLatinOffset(words, |words|);
      assert words[..|words|] == words;
    } else if k > 0 {
      LatinOffset(words, k);
      JoinSpaceAppend(words[..k], [words[k]]);
      assert words == words[..k] + [words[k]];
    }
  }

  /** A finished round has covered the whole passage: the current offset plus the pending
      input reach its last character. */
  lemma GameEndCoversPassage(mode: GameMode, idx: nat, words: seq<string>, input: string)
    requires mode == Latin ==> idx < |words|
    requires DecideGameEnd(mode, idx, words, input)
    ensures idx <= |words|
    ensures StartingIdx(mode, words, idx) + |input| == |JoinToPassage(mode == NonLatin, words)|
  {
    if mode == NonLatin {
      if words != [] {
        LastUnitEndsPassage(mode, words);
      }
    } else {
      LastUnitEndsPassage(mode, words);
    }
  }

  /** Only an error-free input can complete a unit. */
  lemma CompletionIsErrorFree(mode: GameMode, c: char, word: string, input: string)
    requires WordCompleted(mode, c, word, input)
    ensures CheckLikeWord(word, input)
    ensures mode == NonLatin ==> |input| + 1 == |word|
  {
    if mode == NonLatin {
      assert word[..|input|] == input;
    }
  }

  /** Length of the longest common prefix of two strings. */
  function Lcp(a: string, b: string): (n: nat)
    ensures n <= |a| && n <= |b|
    ensures a[..n] == b[..n]
    ensures n < |a| && n < |b| ==> a[n] != b[n]
  {
    if a == [] || b == [] || a[0] != b[0] then 0
    else
      var n := 1 + Lcp(a[1..], b[1..]);
      assert a[..n] == [a[0]] + a[1..][..n - 1];
      assert b[..n] == [b[0]] + b[1..][..n - 1];
      n
  }

  /** A common prefix followed by a mismatch, or by the end of either string, is the
      longest one. */
  lemma LcpExact(a: string, b: string, m: nat)
    requires m <= |a| && m <= |b| && a[..m] == b[..m]
    requires m < |a| && m < |b| ==> a[m] != b[m]
    ensures Lcp(a, b) == m
  {
    LcpMaximal(a, b, m);
  }

  /** Any common prefix is at most as long as the longest one. */
  lemma {:induction false} LcpMaximal(a: string, b: string, m: nat)
    requires m <= |a| && m <= |b| && a[..m] == b[..m]
    ensures m <= Lcp(a, b)
  {
    if m > 0 {
      assert a[0] == a[..m][0] && b[0] == b[..m][0];
      assert a[1..][..m - 1] == a[..m][1..] && b[1..][..m - 1] == b[..m][1..];
      LcpMaximal(a[1..], b[1..], m - 1);
    }
  }

  /** Letters of the current unit matched before the first mismatch, never counting the
      input's last character. */
  function LetterOn(word: string, input: string): nat
  {
    if input == [] then 0 else Min(Lcp(word, input), |input| - 1)
  }

  /** The index of the letter being attempted, as the game loop uses it: the unit's offset
      plus the matched letters. An empty input does not read the unit, so the index may
      then be one past the last unit. */
  function TryingLetterIdx(mode: GameMode, words: seq<string>, k: nat, input: string): nat
    requires input != [] ==> k < |words|
  {
    StartingIdx(mode, words, Min(k, |words|)) + (if input == [] then 0 else LetterOn(words[k], input))
  }

  /** `get_trying_letter_idx`: walks the unit's characters while they match the input,
      stopping one short of the input's end. */
  method GetTryingLetterIdx(mode: GameMode, words: seq<string>, k: nat, input: string)
      returns (idx: nat)
    requires input != [] ==> k < |words|
    ensures idx == TryingLetterIdx(mode, words, k, input)
  {
    var startingIdx := GetStartingIdx(mode, words, k);
    if input == [] {
      return startingIdx;
    }
    var word := words[k];
    var letterOn := 0;
    while letterOn < |word|
      invariant letterOn <= |word| && letterOn <= |input| - 1
      invariant word[..letterOn] == input[..letterOn]
    {
      if letterOn == |input| - 1 || input[letterOn] != word[letterOn] {
        break;
      }
      assert word[..letterOn + 1] == word[..letterOn] + [word[letterOn]];
      assert input[..letterOn + 1] == input[..letterOn] + [input[letterOn]];
      letterOn := letterOn + 1;
    }
    LcpMaximal(word, input, letterOn);
    idx := startingIdx + letterOn;
  }

  /** The attempted slot never lies before the unit's offset, nor past the input's last
      character or the unit's end, and everything before it was typed correctly. */
  lemma TryingLetterIdxBounds(mode: GameMode, words: seq<string>, k: nat, input: string)
    requires k < |words| && input != []
    ensures var start := StartingIdx(mode, words, k);
            var r := TryingLetterIdx(mode, words, k, input);
            start <= r <= start + |input| - 1 && r <= start + |words[k]| &&
            words[k][..r - start] == input[..r - start]
  {
    var n := LetterOn(words[k], input);
    assert words[k][..n] == words[k][..Lcp(words[k], input)][..n];
    assert input[..n] == input[..Lcp(words[k], input)][..n];
  }

  /** An error-free input attributes the last typed character to its own slot, so a letter
      retyped after a backspace lands in the same slot as before. */
  lemma TryingLetterIdxOnTrack(mode: GameMode, words: seq<string>, k: nat, input: string)
    requires k < |words| && input != [] && CheckLikeWord(words[k], input)
    ensures TryingLetterIdx(mode, words, k, input) == StartingIdx(mode, words, k) + |input| - 1
  {
    assert words[k][..|input|] == input;
    LcpMaximal(words[k], input, |input|);
  }

  /** Once the input has gone wrong, typing more characters does not move the attempted
      slot. */
  lemma TryingLetterIdxStuck(mode: GameMode, words: seq<string>, k: nat, input: string, c: char)
    requires k < |words| && input != [] && !CheckLikeWord(words[k], input)
    ensures TryingLetterIdx(mode, words, k, input + [c]) == TryingLetterIdx(mode, words, k, input)
  {
    var w := words[k];
    var n := Lcp(w, input);
    var longer := input + [c];
    assert longer[..|input|] == input;
    assert longer[..n] == input[..n];
    LcpMaximal(w, longer, n);
  }

  /** `get_starting_idx` on the example ["this", "is", "a", "vector"]. */
  lemma StartingIdxExample()
    ensures StartingIdx(Latin, ["this", "is", "a", "vector"], 0) == 0
    ensures StartingIdx(Latin, ["this", "is", "a", "vector"], 1) == 5
    ensures StartingIdx(Latin, ["this", "is", "a", "vector"], 2) == 8
  {
  }

  /** The attempted slot on "the quick brown fox" while typing the second word: after
      three right letters it is the fourth letter of "quick". */
  lemma TryingLetterIdxExample()
    ensures TryingLetterIdx(Latin, ["the", "quick", "brown", "fox"], 1, "qui") == 6
  {
    assert StartingIdx(Latin, ["the", "quick", "brown", "fox"], 1) == 4;
    LcpExact("quick", "qui", 3);
  }

  /** Typing past a mistake keeps the attempted slot on the first wrong letter. */
  lemma TryingLetterIdxAfterMistake()
    ensures TryingLetterIdx(Latin, ["the", "quick", "brown", "fox"], 1, "quisssssssssss") == 7
  {
    assert StartingIdx(Latin, ["the", "quick", "brown", "fox"], 1) == 4;
    LcpExact("quick", "quisssssssssss", 3);
  }

  lemma TryingLetterIdxOnMistake()
    ensures TryingLetterIdx(Latin, ["the", "quick", "brown", "fox"], 1, "quisk") == 7
  {
    assert StartingIdx(Latin, ["the", "quick", "brown", "fox"], 1) == 4;
    LcpExact("quick", "quisk", 3);
  }

  /** `get_maybe_decremented_idx`: a correct NonLatin keystroke has already moved past the
      unit it completed, so formatting goes back to that unit. */
  function MaybeDecrementedIdx(mode: GameMode, err: bool, newChar: bool, idx: nat): (r: nat)
    ensures r <= idx
    ensures r < idx <==> mode == NonLatin && !err && newChar && idx > 0
    ensures r < idx ==> r + 1 == idx
  {
    if mode == NonLatin && !err && newChar && idx > 0 then idx - 1 else idx
  }
}
