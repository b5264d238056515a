/**
 * Colouring of the current unit and of the input (src/game/formatter/mod.rs). Terminal
 * styles are reduced to what the game distinguishes: plain text, coloured text, and white
 * text on a coloured background.
 */
module Formatter {
  import opened Split
  import opened WordProcessing
  import opened Indexer

  datatype Color = Green | Red | Blue

  /** `Raw`: unstyled; `Fg`: coloured text; `Highlight`: white text on a coloured
      background. */
  datatype Style = Raw | Fg(color: Color) | Highlight(bg: Color)

  datatype Span = Span(content: string, style: Style)

  datatype FormattedTexts = FormattedTexts(passage: seq<Span>, input: seq<Span>, error: bool, complete: bool)

  /** The block shown after the input. */
  const Cursor: string := "\U{2588}"

  /** The text a sequence of spans displays. */
  function Text(spans: seq<Span>): string
  {
    if spans == [] then [] else spans[0].content + Text(spans[1..])
  }

  lemma {:induction false} TextAppend(a: seq<Span>, b: seq<Span>)
    ensures Text(a + b) == Text(a) + Text(b)
  {
    if a != [] {
      TextAppend(a[1..], b);
      assert (a + b)[1..] == a[1..] + b;
    } else {
      assert a + b == b;
    }
  }

  /** One span per character displays those characters. */
  lemma {:induction false} TextOfCharacters(spans: seq<Span>, s: string)
    requires |spans| == |s|
    requires forall i :: 0 <= i < |spans| ==> spans[i].content == [s[i]]
    ensures Text(spans) == s
  {
    if spans != [] {
      TextOfCharacters(spans[1..], s[1..]);
      assert s == [s[0]] + s[1..];
    }
  }

  /** `decide_break`: whether the green run stops at `dex`. In Latin mode it stops at the
      first character the input got wrong. In NonLatin mode it does not depend on `dex`:
      the unit is green only right after a fresh keystroke equal to the whole unit, with
      no input pending. */
  predicate DecideBreak(mode: GameMode, word: string, input: string, dex: nat, last: char, newChar: bool): (brk: bool)
    requires dex < |word| && (mode == Latin ==> dex < |input|)
    ensures mode == Latin && word[..dex] == input[..dex] ==> (brk <==> Lcp(word, input) == dex)
    ensures mode == NonLatin ==> (brk <==> GreenCount(mode, word, input, last, newChar) < |word|)
  {
    match mode
    case Latin => word[dex] != input[dex]
    case NonLatin => input != [] || !newChar || [last] != word
  }

  /** How many leading characters of the unit are drawn green. */
  function GreenCount(mode: GameMode, word: string, input: string, last: char, newChar: bool): (n: nat)
    ensures n <= |word|
    ensures mode == Latin ==> n <= |input| && word[..n] == input[..n] &&
                              (n < |word| && n < |input| ==> word[n] != input[n])
    ensures mode == NonLatin ==> n == 0 || n == |word|
  {
    match mode
    case Latin => Lcp(word, input)
    case NonLatin => if input == [] && newChar && word == [last] then |word| else 0
  }

  /** Style of character `i` of the unit: green before `green`, then one highlighted
      character (red on an error, blue otherwise), then plain text. */
  function WordStyle(i: nat, green: nat, err: bool): Style
  {
    if i < green then Fg(Green)
    else if i == green then Highlight(if err then Red else Blue)
    else Raw
  }

  /** The styled unit, one span per character. */
  function WordSpans(mode: GameMode, word: string, input: string, last: char, newChar: bool): (spans: seq<Span>)
  {
    var green := GreenCount(mode, word, input, last, newChar);
    var err := !CheckLikeWord(word, input);
    seq(|word|, i requires 0 <= i < |word| => Span([word[i]], WordStyle(i, green, err)))
  }

  /** Style of every input character: white on red while the input is wrong for the
      unit, green otherwise. */
  function InputStyle(word: string, input: string): Style
  {
    if CheckLikeWord(word, input) then Fg(Green) else Highlight(Red)
  }

  /** A typed space is displayed as '.'. */
  function Shown(c: char): char
  {
    if c == ' ' then '.' else c
  }

  /** The styled input: one span per typed character, then the cursor. */
  function InputSpans(word: string, input: string): (spans: seq<Span>)
  {
    seq(|input|, i requires 0 <= i < |input| => Span([Shown(input[i])], InputStyle(word, input)))
      + [Span(Cursor, Raw)]
  }

  /** `get_formatted_words`: styles the input, then walks the unit while `decide_break`
      lets the green run continue, then highlights the next character and leaves the
      rest plain. */
  method GetFormattedWords(mode: GameMode, word: string, input: string, last: char, newChar: bool)
      returns (formattedWord: seq<Span>, formattedInput: seq<Span>)
    ensures formattedWord == WordSpans(mode, word, input, last, newChar)
    ensures formattedInput == InputSpans(word, input)
  {
    var err := !CheckLikeWord(word, input);
    formattedInput := FormatInput(word, input, err);
    var green;
    formattedWord, green := GreenRun(mode, word, input, last, newChar);
    formattedWord := FormatRest(word, green, err, formattedWord);
    forall m | 0 <= m < |word|
      ensures formattedWord[m] == WordSpans(mode, word, input, last, newChar)[m]
    {
      WordSpansAt(mode, word, input, last, newChar, m);
    }
  }

  /** The input loop of `get_formatted_words`: every typed character in the input style,
      then the cursor. */
  method FormatInput(word: string, input: string, err: bool) returns (formattedInput: seq<Span>)
    requires err == !CheckLikeWord(word, input)
    ensures formattedInput == InputSpans(word, input)
  {
    var style := if err then Highlight(Red) else Fg(Green);
    formattedInput := [];
    var i := 0;
    while i < |input|
      invariant i <= |input| && |formattedInput| == i
      invariant forall j :: 0 <= j < i ==>
                  formattedInput[j] == Span([Shown(input[j])], InputStyle(word, input))
    {
      formattedInput := formattedInput + [Span([Shown(input[i])], style)];
      i := i + 1;
    }
    formattedInput := formattedInput + [Span(Cursor, Raw)];
    assert |formattedInput| == |InputSpans(word, input)|;
    assert forall m :: 0 <= m < |formattedInput| ==> formattedInput[m] == InputSpans(word, input)[m];
  }

  /** The green run of `get_formatted_words`: it stops where `decide_break` says, which is
      after exactly `GreenCount` characters. */
  method GreenRun(mode: GameMode, word: string, input: string, last: char, newChar: bool)
      returns (formattedWord: seq<Span>, wordDex: nat)
    ensures wordDex == GreenCount(mode, word, input, last, newChar)
    ensures |formattedWord| == wordDex
    ensures forall j :: 0 <= j < wordDex ==> formattedWord[j] == Span([word[j]], Fg(Green))
  {
    ghost var green := GreenCount(mode, word, input, last, newChar);
    formattedWord := [];
    wordDex := 0;
    while wordDex < |word| && (wordDex < |input| || mode == NonLatin)
      invariant wordDex <= green && |formattedWord| == wordDex
      invariant forall j :: 0 <= j < wordDex ==> formattedWord[j] == Span([word[j]], Fg(Green))
      invariant mode == Latin ==> word[..wordDex] == input[..wordDex]
      invariant mode == NonLatin && wordDex > 0 ==> green == |word|
    {
      if DecideBreak(mode, word, input, wordDex, last, newChar) {
        break;
      }
      if mode == Latin {
        assert word[..wordDex + 1] == word[..wordDex] + [word[wordDex]];
        assert input[..wordDex + 1] == input[..wordDex] + [input[wordDex]];
        LcpMaximal(word, input, wordDex + 1);
      }
      formattedWord := formattedWord + [Span([word[wordDex]], Fg(Green))];
      wordDex := wordDex + 1;
    }
    if mode == Latin {
      LcpMaximal(word, input, wordDex);
    }
  }

  /** The rest of the unit after the green run: the next character highlighted, the
      others plain. */
  method FormatRest(word: string, green: nat, err: bool, run: seq<Span>)
      returns (formattedWord: seq<Span>)
    requires green <= |word| && |run| == green
    requires forall j :: 0 <= j < green ==> run[j] == Span([word[j]], Fg(Green))
    ensures |formattedWord| == |word|
    ensures forall m :: 0 <= m < |word| ==> formattedWord[m] == Span([word[m]], WordStyle(m, green, err))
  {
    formattedWord := run;
    var first := true;
    var j := green;
    while j < |word|
      invariant green <= j <= |word| && |formattedWord| == j
      invariant first <==> j == green
      invariant forall m :: 0 <= m < j ==> formattedWord[m] == Span([word[m]], WordStyle(m, green, err))
    {
      if first {
        formattedWord := formattedWord + [Span([word[j]], Highlight(if err then Red else Blue))];
        first := false;
      } else {
        formattedWord := formattedWord + [Span([word[j]], Raw)];
      }
      j := j + 1;
    }
  }

  /** Styling never changes the text: the unit's spans show the unit, the input's spans
      show the input (spaces as '.') and then the cursor. */
  lemma SpansShowText(mode: GameMode, word: string, input: string, last: char, newChar: bool)
    ensures |WordSpans(mode, word, input, last, newChar)| == |word|
    ensures Text(WordSpans(mode, word, input, last, newChar)) == word
    ensures |InputSpans(word, input)| == |input| + 1
    ensures Text(InputSpans(word, input)) ==
              seq(|input|, i requires 0 <= i < |input| => Shown(input[i])) + Cursor
  {
    TextOfCharacters(WordSpans(mode, word, input, last, newChar), word);
    var typed := seq(|input|, i requires 0 <= i < |input| => Span([Shown(input[i])], InputStyle(word, input)));
    TextOfCharacters(typed, seq(|input|, i requires 0 <= i < |input| => Shown(input[i])));
    TextAppend(typed, [Span(Cursor, Raw)]);
    assert Text([Span(Cursor, Raw)]) == Cursor + [];
  }

  /** Every input character carries the error style exactly when the input is not a
      prefix of the unit, and the cursor is the last span. */
  lemma InputErrorStyle(word: string, input: string)
    ensures var spans := InputSpans(word, input);
            spans[|input|] == Span(Cursor, Raw) &&
            forall i :: 0 <= i < |input| ==> (spans[i].style == Highlight(Red) <==> !(input <= word))
  {
  }

  lemma WordSpansAt(mode: GameMode, word: string, input: string, last: char, newChar: bool, i: nat)
    requires i < |word|
    ensures |WordSpans(mode, word, input, last, newChar)| == |word|
    ensures WordSpans(mode, word, input, last, newChar)[i] ==
              Span([word[i]], WordStyle(i, GreenCount(mode, word, input, last, newChar), !(input <= word)))
  {
  }

  /** In Latin mode the green characters are exactly the correctly typed prefix; the next
      character is blue while the input is a prefix of the unit, and red at the first
      mismatch otherwise. */
  lemma LatinWordColours(word: string, input: string, last: char, newChar: bool)
    ensures var spans := WordSpans(Latin, word, input, last, newChar);
            var n := Lcp(word, input);
            (forall i :: 0 <= i < |word| ==> (spans[i].style == Fg(Green) <==> i < n)) &&
            (input <= word && |input| < |word| ==> spans[|input|].style == Highlight(Blue)) &&
            (!(input <= word) && n < |word| ==> spans[n].style == Highlight(Red)) &&
            (forall i :: n < i < |word| ==> spans[i].style == Raw)
  {
    var spans := WordSpans(Latin, word, input, last, newChar);
    var n := Lcp(word, input);
    forall i | 0 <= i < |word|
      ensures spans[i].style == WordStyle(i, n, !(input <= word))
    {
      WordSpansAt(Latin, word, input, last, newChar, i);
    }
    if input <= word {
      assert word[..|input|] == input;
      LcpMaximal(word, input, |input|);
    }
  }

  /** In NonLatin mode the unit turns green only on a fresh keystroke that is the whole
      unit, with no input pending. */
  lemma NonLatinWordColours(word: string, input: string, last: char, newChar: bool)
    requires word != []
    ensures var spans := WordSpans(NonLatin, word, input, last, newChar);
            spans[0].style == Fg(Green) <==> input == [] && newChar && word == [last]
  {
    WordSpansAt(NonLatin, word, input, last, newChar, 0);
  }

  /** The passage with `part` written over it from position `at`. */
  function Splice(passage: seq<Span>, at: nat, part: seq<Span>): (r: seq<Span>)
    requires at + |part| <= |passage|
    ensures |r| == |passage|
    ensures r[at..at + |part|] == part
    ensures forall i :: 0 <= i < |r| && !(at <= i < at + |part|) ==> r[i] == passage[i]
  {
    passage[..at] + part + passage[at + |part|..]
  }

  /** `get_formatted_texts`: the error flag is decided on the current unit; the index is
      moved back after a NonLatin unit was just completed; that unit's spans overwrite
      its stretch of the passage. The stretch must lie inside the passage. */
  method GetFormattedTexts(mode: GameMode, words: seq<string>, input: string, idx: nat,
                           last: char, newChar: bool, passage: seq<Span>)
      returns (texts: FormattedTexts)
    requires idx < |words|
    requires var k := MaybeDecrementedIdx(mode, !CheckLikeWord(words[idx], input), newChar, idx);
             StartingIdx(mode, words, k) + |words[k]| <= |passage|
    ensures var err := !CheckLikeWord(words[idx], input);
            var k := MaybeDecrementedIdx(mode, err, newChar, idx);
            texts == FormattedTexts(
              Splice(passage, StartingIdx(mode, words, k), WordSpans(mode, words[k], input, last, newChar)),
              InputSpans(words[k], input), err, false)
  {
    var userHasErr := !CheckLikeWord(words[idx], input);
    var k := MaybeDecrementedIdx(mode, userHasErr, newChar, idx);
    var formattedWord, formattedInput := GetFormattedWords(mode, words[k], input, last, newChar);
    SpansShowText(mode, words[k], input, last, newChar);
    var startingIdx := GetStartingIdx(mode, words, k);
    texts := FormattedTexts(Splice(passage, startingIdx, formattedWord), formattedInput, userHasErr, false);
  }

  /** `get_formatted_texts_line_mode`: the current unit is the front of the passage. */
  method GetFormattedTextsLineMode(mode: GameMode, word: string, input: string, last: char,
                                   newChar: bool, passage: seq<Span>)
      returns (texts: FormattedTexts)
    requires |word| <= |passage|
    ensures texts == FormattedTexts(Splice(passage, 0, WordSpans(mode, word, input, last, newChar)),
                                    InputSpans(word, input), !CheckLikeWord(word, input), false)
  {
    var formattedWord, formattedInput := GetFormattedWords(mode, word, input, last, newChar);
    SpansShowText(mode, word, input, last, newChar);
    texts := FormattedTexts(Splice(passage, 0, formattedWord), formattedInput,
                            !CheckLikeWord(word, input), false);
  }

  /** `maybe_add_space`: the separator written after each unit of a finished passage. */
  function MaybeAddSpace(mode: GameMode): (sep: string)
    ensures |sep| == Separator(mode)
    ensures forall i :: 0 <= i < |sep| ==> sep[i] == ' '
  {
    if mode == Latin then " " else ""
  }

  /** `get_fully_reformatted_texts`: one coloured span per unit, followed by its separator,
      and a single input span showing `endString` in white on `color`. */
  function GetFullyReformattedTexts(mode: GameMode, words: seq<string>, color: Color,
                                    endString: string, err: bool): (texts: FormattedTexts)
    ensures |texts.passage| == |words|
    ensures forall i :: 0 <= i < |words| ==>
              texts.passage[i] == Span(words[i] + MaybeAddSpace(mode), Fg(color))
    ensures texts.input == [Span(endString, Highlight(color))]
    ensures texts.error == err && texts.complete
  {
    FormattedTexts(seq(|words|, i requires 0 <= i < |words| => Span(words[i] + MaybeAddSpace(mode), Fg(color))),
                   [Span(endString, Highlight(color))], err, true)
  }

  /** The redrawn passage shows the whole passage again, with one trailing space in Latin
      mode. */
  lemma {:induction false} ReformattedShowsPassage(mode: GameMode, words: seq<string>, color: Color,
                                                   endString: string, err: bool)
    requires words != []
    ensures Text(GetFullyReformattedTexts(mode, words, color, endString, err).passage) ==
              JoinToPassage(mode == NonLatin, words) + MaybeAddSpace(mode)
  {
    var spans := GetFullyReformattedTexts(mode, words, color, endString, err).passage;
    var rest := GetFullyReformattedTexts(mode, words[1..], color, endString, err).passage;
    assert spans[1..] == rest;
    if |words| == 1 {
      assert Text(spans) == words[0] + MaybeAddSpace(mode) + [];
      if mode == NonLatin {
        assert Concat(words) == words[0] + [];
      }
    } else {
      ReformattedShowsPassage(mode, words[1..], color, endString, err);
      if mode == Latin {
        AppendAssoc(words[0], " ", JoinSpace(words[1..]), " ");
      } else {
        assert Text(spans) == words[0] + Concat(words[1..]) + [];
      }
    }
  }

  /** `get_reformatted_complete_texts`: the finished passage in green and "COMPLETE". */
  function GetReformattedCompleteTexts(mode: GameMode, words: seq<string>): (texts: FormattedTexts)
    ensures texts.complete && !texts.error
    ensures texts.input == [Span("COMPLETE", Highlight(Green))]
    ensures |texts.passage| == |words| &&
            forall i :: 0 <= i < |words| ==> texts.passage[i].style == Fg(Green)
  {
    GetFullyReformattedTexts(mode, words, Green, "COMPLETE", false)
  }

  /** `get_reformatted_failed_texts`: the passage in red and "FAIL". */
  function GetReformattedFailedTexts(mode: GameMode, words: seq<string>): (texts: FormattedTexts)
    ensures texts.complete && texts.error
    ensures texts.input == [Span("FAIL", Highlight(Red))]
    ensures |texts.passage| == |words| &&
            forall i :: 0 <= i < |words| ==> texts.passage[i].style == Fg(Red)
  {
    GetFullyReformattedTexts(mode, words, Red, "FAIL", true)
  }
}
