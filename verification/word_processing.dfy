/**
 * Word-level rules of a round (src/game/word_processing/mod.rs): which text mode a passage
 * is played in, when a word and when the whole passage are complete, the readline `C-w`
 * edit, and the truncation of the passage display in line mode.
 */
module WordProcessing {
  import opened Split

  /** The text mode: words separated by spaces, or one grapheme cluster per unit. */
  datatype GameMode = Latin | NonLatin

  /** `get_game_mode`: a passage whose first grapheme cluster is wide is played NonLatin. */
  function GetGameMode(u: Unicode, passage: string): (mode: GameMode)
    requires Lawful(u) && passage != []
    ensures mode == NonLatin <==> IsWideCharacter(u, passage)
  {
    if IsWideCharacter(u, passage) then NonLatin else Latin
  }

  /** The units of a passage put back together with the separator of its own text mode
      give the passage back. */
  lemma UnitsRejoin(u: Unicode, passage: string)
    requires Lawful(u) && passage != []
    ensures JoinToPassage(GetGameMode(u, passage) == NonLatin, ToWords(u, passage)) == passage
  {
  }

  /** `get_all_input_minus_last_word` (readline `C-w`): an input without words is kept as
      it is; otherwise its units without the last one are joined again. */
  function GetAllInputMinusLastWord(u: Unicode, input: string): (r: string)
    requires Lawful(u)
    ensures var words := ToWordsCollapsing(u, input);
            words == [] ==> r == input
    ensures var words := ToWordsCollapsing(u, input);
            words != [] && IsWideCharacter(u, input) ==>
              r + words[|words| - 1] == input && |r| < |input|
    ensures var words := ToWordsCollapsing(u, input);
            words != [] && !IsWideCharacter(u, input) ==>
              r == JoinSpace(words[..|words| - 1]) && SplitWhitespace(r) == words[..|words| - 1]
  {
    var words := ToWordsCollapsing(u, input);
    if words == [] then input
    else
      var kept := words[..|words| - 1];
      var r := JoinToPassage(IsWideCharacter(u, input), kept);
      if IsWideCharacter(u, input) then
        assert words == kept + [words[|words| - 1]];
        ConcatAppend(kept, [words[|words| - 1]]);
        assert Concat([words[|words| - 1]]) == words[|words| - 1] + [];
        r
      else
        SplitWhitespaceJoin(kept);
        r
  }

  lemma SplitWhitespaceExample()
    ensures SplitWhitespace("this is a test ") == ["this", "is", "a", "test"]
  {
    var words := ["this", "is", "a", "test"];
    assert JoinSpace(words) + " " == "this is a test ";
    SplitWhitespaceJoinThen(words, " ");
    assert SplitWhitespace(" ") == [];
  }

  lemma JoinSpaceExample()
    ensures JoinSpace(["this", "is", "a"]) == "this is a"
  {
  }

  /** A trailing space goes together with the last word. */
  lemma MinusLastWordLatinExample(u: Unicode)
    requires Lawful(u)
    requires !IsWideCharacter(u, "this is a test ")
    ensures GetAllInputMinusLastWord(u, "this is a test ") == "this is a"
  {
    SplitWhitespaceExample();
    JoinSpaceExample();
    var words := ["this", "is", "a", "test"];
    assert words[..3] == ["this", "is", "a"];
  }

  lemma MinusLastWordEmptyExample(u: Unicode)
    requires Lawful(u)
    ensures GetAllInputMinusLastWord(u, "") == ""
  {
  }

  lemma MinusLastWordWideExample(u: Unicode)
    requires Lawful(u)
    requires u.graphemes("你好") == ["你", "好"] && u.width("你") == 2
    ensures GetAllInputMinusLastWord(u, "你好") == "你"
  {
  }

  /** `decide_game_end`: a Latin round ends when the last word is typed exactly (no
      trailing space needed); a NonLatin round ends once the index has moved past the last
      unit and no input is pending. The Latin rule reads the current word, so the index
      must point at one. */
  predicate DecideGameEnd(mode: GameMode, idx: nat, words: seq<string>, input: string): (end: bool)
    requires mode == Latin ==> idx < |words|
    ensures mode == Latin ==> (end <==> words[..idx] + [input] == words)
    ensures mode == NonLatin ==> (end <==> input == [] && idx == |words|)
  {
    match mode
    case Latin => idx + 1 == |words| && words[idx] == input
    case NonLatin => input == [] && idx == |words|
  }

  /** `word_completed`: a Latin word is completed by a space typed after the exact word; a
      NonLatin unit is completed by the character that makes the input equal to it. */
  predicate WordCompleted(mode: GameMode, c: char, word: string, input: string): (done: bool)
    ensures done ==> input <= word
    ensures mode == Latin ==> (done <==> c == ' ' && input <= word && |input| == |word|)
    ensures mode == NonLatin ==>
              (done <==> input < word && |word| == |input| + 1 && word[|input|] == c)
  {
    match mode
    case Latin => c == ' ' && word == input
    case NonLatin => input + [c] == word
  }

  /** `get_updated_texts`: in line mode the display of a completed word is cut from the
      front of the passage, with its following space in Latin mode. The source slices,
      so the passage must hold that many items. */
  function GetUpdatedTexts<T>(mode: GameMode, passage: seq<T>, word: string): (r: seq<T>)
    requires mode == Latin ==> |word| + 1 <= |passage|
    requires mode == NonLatin ==> 1 <= |passage|
    ensures |r| == |passage| - Separated(mode, word)
    ensures forall i :: 0 <= i < |r| ==> r[i] == passage[i + Separated(mode, word)]
  {
    match mode
    case Latin => passage[|word| + 1..]
    case NonLatin => passage[1..]
  }

  /** How many passage positions a completed unit occupies in line mode: the word and its
      space in Latin mode, one unit in NonLatin mode. */
  function Separated(mode: GameMode, word: string): nat
  {
    if mode == Latin then |word| + 1 else 1
  }

  /** A Latin round ends on the exact last word; a NonLatin round once the index is past
      the last unit with nothing pending. */
  lemma GameEndExamples()
    ensures DecideGameEnd(Latin, 3, ["the", "quick", "brown", "fox"], "fox")
    ensures !DecideGameEnd(Latin, 1, ["the", "quick", "brown", "fox"], "fox")
    ensures !DecideGameEnd(Latin, 3, ["the", "quick", "brown", "fox"], "bubbersarecoot")
    ensures DecideGameEnd(NonLatin, 2, ["你", "好"], "")
    ensures !DecideGameEnd(NonLatin, 1, ["你", "好"], "好")
    ensures !DecideGameEnd(NonLatin, 0, ["你", "好"], "好")
  {
  }

  /** A Latin word waits for the space after it; a NonLatin unit is done by its own
      character. */
  lemma WordCompletedExamples()
    ensures WordCompleted(Latin, ' ', "fox", "fox")
    ensures !WordCompleted(Latin, 'j', "fox", "fox")
    ensures !WordCompleted(Latin, ' ', "fox", "fo")
    ensures !WordCompleted(Latin, 'x', "fox", "fo")
    ensures WordCompleted(NonLatin, '好', "好", "")
    ensures !WordCompleted(NonLatin, '好', "好", "你")
    ensures !WordCompleted(NonLatin, '你', "好", "")
  {
    assert ("" + ['你'])[0] != "好"[0];
  }

  /** Line mode drops "brown " from "brown fox", and one unit from a NonLatin passage. */
  lemma UpdatedTextsExamples()
    ensures GetUpdatedTexts(Latin, "brown fox", "brown") == "fox"
    ensures GetUpdatedTexts(NonLatin, "亂數假文產生器", "亂") == "數假文產生器"
  {
  }
}
