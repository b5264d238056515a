/**
 * A round of the typing game (src/game/mod.rs): the play modes, their storage codes, and
 * one step of the `play_game` loop, which reads a key (or a timeout) and updates the
 * typed input, the current unit, the formatted display, the set of mistaken words and the
 * session statistics.
 *
 * The terminal, the input thread and the clock are outside the model: the key arrives as
 * an `Event`, the time as `now` (whole seconds). The info and graph screens that Ctrl-a
 * and Ctrl-g open only draw, so here they change nothing.
 */
module Game {
  import opened Wrappers
  import opened Split
  import WP = WordProcessing
  import I = Indexer
  import F = Formatter
  import S = Stats
  import PC = PassageController

  /** The play mode chosen by the player. */
  datatype GameMode = Default | InstantDeath | Training
  {
    /** `next`: the modes form a ring Default, InstantDeath, Training. */
    function Next(): (m: GameMode)
      ensures m != this
    {
      match this
      case Default => InstantDeath
      case InstantDeath => Training
      case Training => Default
    }

    /** `prev`: the ring walked the other way. */
    function Prev(): (m: GameMode)
      ensures m != this
    {
      match this
      case Default => Training
      case Training => InstantDeath
      case InstantDeath => Default
    }
  }

  /** Three steps forward come back to the start, and `prev` undoes `next`. */
  lemma ModeRing(m: GameMode)
    ensures m.Next().Next().Next() == m
    ensures m.Next().Prev() == m && m.Prev().Next() == m
    ensures m.Next() != m.Next().Next()
  {
  }

  /** The code stored in the database. */
  function ToI64(m: GameMode): (code: int)
    ensures 0 <= code <= 2
    ensures code == 0 <==> m == Default
  {
    match m
    case Training => 2
    case InstantDeath => 1
    case Default => 0
  }

  /** Decoding a stored code: anything but 1 or 2 is the default mode. */
  function FromI64(code: int): (m: GameMode)
    ensures code != 1 && code != 2 ==> m == Default
    ensures m == Training <==> code == 2
    ensures m == InstantDeath <==> code == 1
  {
    if code == 2 then Training
    else if code == 1 then InstantDeath
    else Default
  }

  /** Encoding and decoding a mode gives it back, so distinct modes get distinct codes. */
  lemma CodeRoundTrip(m: GameMode)
    ensures FromI64(ToI64(m)) == m
  {
  }

  /** A key press as the terminal reports it. */
  datatype Key = Char(c: char) | Ctrl(c: char) | Backspace | OtherKey

  /** What one turn of the loop receives: a key, or nothing within the polling period. */
  datatype Event = Press(key: Key) | Timeout

  /** The fixed facts of a round: the passage, its units and text mode, the play mode, and
      whether the display keeps the whole passage (`always_full`) or only what is left. */
  datatype Setup = Setup(u: Unicode, passage: string, words: seq<string>,
                         textMode: WP.GameMode, gameMode: GameMode, alwaysFull: bool)

  /** A round's setup as `play_game` derives it from the passage. */
  function MakeSetup(u: Unicode, passage: string, gameMode: GameMode, alwaysFull: bool): (g: Setup)
    requires Lawful(u) && passage != []
    ensures SetupOk(g) && g.gameMode == gameMode && g.alwaysFull == alwaysFull
  {
    Setup(u, passage, ToWords(u, passage), WP.GetGameMode(u, passage), gameMode, alwaysFull)
  }

  ghost predicate SetupOk(g: Setup)
  {
    Lawful(g.u) && g.passage != [] && g.words == ToWords(g.u, g.passage) &&
    g.textMode == WP.GetGameMode(g.u, g.passage)
  }

  /** The state `play_game` keeps between keys. */
  datatype RoundState = RoundState(texts: F.FormattedTexts, userInput: string,
                                   mistakenWords: set<string>, currentWordIdx: nat,
                                   gotFirstInput: bool)

  /** The start of a round: one raw span per character of the passage, nothing typed. */
  function Begin(g: Setup): (s: RoundState)
    ensures s.userInput == [] && s.currentWordIdx == 0 && s.mistakenWords == {}
    ensures F.Text(s.texts.passage) == g.passage && !s.texts.error && !s.texts.complete
  {
    var spans := seq(|g.passage|, i requires 0 <= i < |g.passage| => F.Span([g.passage[i]], F.Raw));
    F.TextOfCharacters(spans, g.passage);
    RoundState(F.FormattedTexts(spans, [], false, false), [], {}, 0, false)
  }

  /** How many characters in front of unit `idx` the line-mode display has dropped: the
      earlier words and their spaces in Latin mode, one position per unit otherwise. */
  function Cut(mode: WP.GameMode, words: seq<string>, idx: nat): nat
    requires idx <= |words|
  {
    if mode == WP.Latin then I.StartingIdx(mode, words, idx) else idx
  }

  /** The number of passage spans on display while unit `idx` is being typed. */
  function PassageShown(g: Setup, idx: nat): int
    requires idx <= |g.words|
  {
    if g.alwaysFull then |g.passage| else |g.passage| - Cut(g.textMode, g.words, idx)
  }

  /** The invariant between keys of a round still in play: the current unit exists, the
      round has not already ended, the display has the expected number of spans, and the
      error flag tells whether the input has left the current unit. */
  ghost predicate RoundInv(g: Setup, s: RoundState)
  {
    SetupOk(g) &&
    (!s.texts.complete ==>
      s.currentWordIdx < |g.words| &&
      !WP.DecideGameEnd(g.textMode, s.currentWordIdx, g.words, s.userInput) &&
      |s.texts.passage| == PassageShown(g, s.currentWordIdx) &&
      s.texts.error == !I.CheckLikeWord(g.words[s.currentWordIdx], s.userInput))
  }

  /** The state right after a key was applied, before the display is rebuilt. A NonLatin
      round may have just passed its last unit; then nothing is pending. */
  ghost predicate Mid(g: Setup, s: RoundState)
  {
    SetupOk(g) && !s.texts.complete && s.currentWordIdx <= |g.words| &&
    (s.currentWordIdx < |g.words| ==> |s.texts.passage| == PassageShown(g, s.currentWordIdx)) &&
    (s.currentWordIdx == |g.words| ==>
       g.textMode == WP.NonLatin && s.userInput == [] && !s.texts.error)
  }

  /** The state once the display is rebuilt: as in `Mid`, and the error flag tells whether
      the input has left the current unit. */
  ghost predicate Settled(g: Setup, s: RoundState)
  {
    Mid(g, s) &&
    (s.currentWordIdx < |g.words| ==>
       s.texts.error == !I.CheckLikeWord(g.words[s.currentWordIdx], s.userInput))
  }

  /** Facts about the units of a well-formed setup. */
  lemma SetupFacts(g: Setup)
    requires SetupOk(g)
    ensures |g.words| >= 1
    ensures JoinToPassage(g.textMode == WP.NonLatin, g.words) == g.passage
    ensures g.textMode == WP.NonLatin ==> forall i :: 0 <= i < |g.words| ==> g.words[i] != []
    ensures g.textMode == WP.Latin ==> JoinSpace(g.words) == g.passage
  {
    WP.UnitsRejoin(g.u, g.passage);
  }

  /** NonLatin units are never empty, so the offset of unit `k` is at least `k`. */
  lemma {:induction false} OffsetAtLeastIndex(words: seq<string>, k: nat)
    requires k <= |words|
    requires forall i :: 0 <= i < |words| ==> words[i] != []
    ensures I.StartingIdx(WP.NonLatin, words, k) >= k
  {
    if k > 0 {
      OffsetAtLeastIndex(words, k - 1);
    }
  }

  /** Unit `k` lies inside the passage, both in the full display and in line mode. */
  lemma UnitFits(g: Setup, k: nat)
    requires SetupOk(g) && k < |g.words|
    ensures I.StartingIdx(g.textMode, g.words, k) + |g.words[k]| <= |g.passage|
    ensures Cut(g.textMode, g.words, k) + |g.words[k]| <= |g.passage|
    ensures g.textMode == WP.NonLatin ==> Cut(g.textMode, g.words, k) + 1 <= |g.passage|
  {
    SetupFacts(g);
    I.StartingIdxLocates(g.textMode, g.words, k);
    if g.textMode == WP.NonLatin {
      OffsetAtLeastIndex(g.words, k);
    }
  }

  /** In line mode a completed unit is cut from the front of the display, which is what
      moving to the next unit expects. */
  lemma LineCut(g: Setup, k: nat)
    requires SetupOk(g) && k < |g.words|
    requires g.textMode == WP.Latin ==> k + 1 < |g.words|
    ensures Cut(g.textMode, g.words, k) + WP.Separated(g.textMode, g.words[k]) ==
            Cut(g.textMode, g.words, k + 1)
    ensures Cut(g.textMode, g.words, k + 1) <= |g.passage|
  {
    UnitFits(g, k);
    if g.textMode == WP.Latin {
      UnitFits(g, k + 1);
    }
  }

  /** `String::pop`: the last character goes, an empty input stays empty. */
  function Pop(s: string): (r: string)
    ensures s == [] ==> r == []
    ensures s != [] ==> r + [s[|s| - 1]] == s
  {
    if s == [] then s else s[..|s| - 1]
  }

  /** What a key did, before the display is rebuilt: either the round is left with an
      action, or it goes on with the new state and three flags (a character was typed,
      the last typed character, and whether a correct key may extend the combo). */
  datatype KeyOutcome =
    | Exit(action: PC.Action)
    | Proceed(s: RoundState, stats: S.StatsData, newChar: bool, last: char, allowCombo: bool)

  /** The `match` on the key. Ctrl-c, -n, -p and -r leave the round; Ctrl-u, Ctrl-w and
      Backspace/Ctrl-h edit the input; a character starts the clock, completes the unit,
      is ignored (newline, tab) or is appended, and then the WPM is refreshed. */
  function OnKey(g: Setup, s: RoundState, st: S.StatsData, key: Key, now: nat): (r: KeyOutcome)
    requires RoundInv(g, s) && !s.texts.complete && st.Valid()
    requires now >= 1 && now >= st.startTime
    ensures r.Proceed? ==> Mid(g, r.s) && r.stats.Valid() && r.stats.startTime <= now
    ensures r.Proceed? ==> r.s.mistakenWords == s.mistakenWords
    ensures r.Proceed? && !key.Char? ==>
              r.stats == st && !r.newChar && !r.allowCombo && r.s.gotFirstInput == s.gotFirstInput
    ensures r.Proceed? && key.Char? ==> r.newChar && r.allowCombo && r.s.gotFirstInput
  {
    match key
    case Ctrl(c) =>
      if c == 'c' then Exit(PC.Quit)
      else if c == 'n' then Exit(PC.NextPassage)
      else if c == 'p' then Exit(PC.PreviousPassage)
      else if c == 'r' then Exit(PC.RestartPassage)
      else if c == 'u' then Proceed(s.(userInput := []), st, false, ' ', false)
      else if c == 'w' then
        Proceed(s.(userInput := WP.GetAllInputMinusLastWord(g.u, s.userInput)), st, false, ' ', false)
      else if c == 'h' then Proceed(s.(userInput := Pop(s.userInput)), st, false, ' ', false)
      else Proceed(s, st, false, ' ', false)
    case Backspace => Proceed(s.(userInput := Pop(s.userInput)), st, false, ' ', false)
    case OtherKey => Proceed(s, st, false, ' ', false)
    case Char(c) =>
      var started := st.UpdateStartTime(now);
      var s1 := TypeChar(g, s, c);
      Proceed(s1.(gotFirstInput := true), started.UpdateWpm(s1.currentWordIdx, g.words, now),
              true, c, true)
  }

  /** The effect of a typed character on the input and the current unit. */
  function TypeChar(g: Setup, s: RoundState, c: char): (r: RoundState)
    requires RoundInv(g, s) && !s.texts.complete
    ensures Mid(g, r) && r.mistakenWords == s.mistakenWords
  {
    var idx := s.currentWordIdx;
    var w := g.words[idx];
    if WP.WordCompleted(g.textMode, c, w, s.userInput) then
      I.CompletionIsErrorFree(g.textMode, c, w, s.userInput);
      LineCut(g, idx);
      var passage := if g.alwaysFull then s.texts.passage
                     else WP.GetUpdatedTexts(g.textMode, s.texts.passage, w);
      s.(texts := s.texts.(passage := passage), currentWordIdx := idx + 1, userInput := [])
    else if c == '\n' || c == '\t' then s
    else s.(userInput := s.userInput + [c])
  }

  /** The unit whose display `get_formatted_texts` redraws. */
  function MaybeDecremented(g: Setup, s: RoundState, newChar: bool): (k: nat)
    requires s.currentWordIdx < |g.words|
    ensures k <= s.currentWordIdx
  {
    var idx := s.currentWordIdx;
    I.MaybeDecrementedIdx(g.textMode, !I.CheckLikeWord(g.words[idx], s.userInput), newChar, idx)
  }

  /** The display after `get_formatted_texts` (whole passage shown). */
  function FullTexts(g: Setup, s: RoundState, last: char, newChar: bool): (t: F.FormattedTexts)
    requires SetupOk(g) && s.currentWordIdx < |g.words| && |s.texts.passage| == |g.passage|
    ensures |t.passage| == |s.texts.passage| && !t.complete
    ensures t.error == !I.CheckLikeWord(g.words[s.currentWordIdx], s.userInput)
  {
    var idx := s.currentWordIdx;
    var err := !I.CheckLikeWord(g.words[idx], s.userInput);
    var k := MaybeDecremented(g, s, newChar);
    UnitFits(g, k);
    F.FormattedTexts(
      F.Splice(s.texts.passage, I.StartingIdx(g.textMode, g.words, k),
               F.WordSpans(g.textMode, g.words[k], s.userInput, last, newChar)),
      F.InputSpans(g.words[k], s.userInput), err, false)
  }

  /** The display after `get_formatted_texts_line_mode` (the current unit in front). */
  function LineTexts(g: Setup, s: RoundState, last: char, newChar: bool): (t: F.FormattedTexts)
    requires SetupOk(g) && s.currentWordIdx < |g.words|
    requires |s.texts.passage| == |g.passage| - Cut(g.textMode, g.words, s.currentWordIdx)
    ensures |t.passage| == |s.texts.passage| && !t.complete
    ensures t.error == !I.CheckLikeWord(g.words[s.currentWordIdx], s.userInput)
  {
    var w := g.words[s.currentWordIdx];
    UnitFits(g, s.currentWordIdx);
    F.FormattedTexts(F.Splice(s.texts.passage, 0, F.WordSpans(g.textMode, w, s.userInput, last, newChar)),
                     F.InputSpans(w, s.userInput), !I.CheckLikeWord(w, s.userInput), false)
  }

  /** The display is rebuilt while a unit is left to type. */
  function Reformat(g: Setup, s: RoundState, last: char, newChar: bool): (r: RoundState)
    requires Mid(g, s)
    ensures Settled(g, r) && r == s.(texts := r.texts)
  {
    if s.currentWordIdx >= |g.words| then s
    else if g.alwaysFull then s.(texts := FullTexts(g, s, last, newChar))
    else s.(texts := LineTexts(g, s, last, newChar))
  }

  /** Scoring a key: a typed character that leaves the input in error costs an error and
      records the unit as mistaken (and ends the round in instant-death mode); otherwise a
      typed character extends the combo. The slot scored is the letter being tried. */
  function Score(g: Setup, s: RoundState, st: S.StatsData, newChar: bool, allowCombo: bool)
    : (r: (RoundState, S.StatsData))
    requires Settled(g, s)
    ensures r.0.currentWordIdx == s.currentWordIdx && r.0.userInput == s.userInput
    ensures !r.0.texts.complete ==> Settled(g, r.0)
    ensures st.Valid() ==> r.1.Valid()
    ensures r.1.startTime == st.startTime
    ensures !r.0.texts.complete ==> r.0.texts == s.texts
    ensures !newChar && !allowCombo ==> r == (s, st)
  {
    var letter := I.TryingLetterIdx(g.textMode, g.words, s.currentWordIdx, s.userInput);
    if s.texts.error && newChar then
      var s1 := s.(mistakenWords := s.mistakenWords + {g.words[s.currentWordIdx]});
      var st1 := st.IncrementErrors(letter);
      if g.gameMode == InstantDeath then
        (s1.(texts := F.GetReformattedFailedTexts(g.textMode, g.words)), st1)
      else (s1, st1)
    else if allowCombo then (s, st.IncrementCombo(letter))
    else (s, st)
  }

  /** `decide_game_end`: a finished passage is redrawn as complete, the index moves past
      the end, the WPM is taken once more and the input is cleared. */
  function End(g: Setup, s: RoundState, st: S.StatsData, now: nat): (r: (RoundState, S.StatsData))
    requires Settled(g, s) && st.Valid() && now >= st.startTime
    ensures RoundInv(g, r.0) && r.1.Valid() && r.1.startTime <= now
    ensures r.1 == st.(wpm := r.1.wpm)
    ensures r.0.mistakenWords == s.mistakenWords && r.0.gotFirstInput == s.gotFirstInput
  {
    if WP.DecideGameEnd(g.textMode, s.currentWordIdx, g.words, s.userInput) then
      var idx := s.currentWordIdx + 1;
      (s.(texts := F.GetReformattedCompleteTexts(g.textMode, g.words), currentWordIdx := idx,
          userInput := []),
       st.UpdateWpm(idx, g.words, now))
    else (s, st)
  }

  /** The result of one turn of the loop. */
  datatype StepResult = StepResult(round: RoundState, stats: S.StatsData, exit: Option<PC.Action>)

  /** One turn of `play_game` for a round still in play. */
  function Step(g: Setup, s: RoundState, st: S.StatsData, event: Event, now: nat): (r: StepResult)
    requires RoundInv(g, s) && !s.texts.complete && st.Valid()
    requires now >= 1 && now >= st.startTime
    ensures r.exit.None? ==> RoundInv(g, r.round) && r.stats.Valid() && r.stats.startTime <= now
    ensures r.exit.Some? ==> r.round == s && r.stats == st
  {
    match event
    case Timeout =>
      StepResult(s, if s.gotFirstInput then st.UpdateWpm(s.currentWordIdx, g.words, now) else st, None)
    case Press(key) =>
      match OnKey(g, s, st, key, now)
      case Exit(action) => StepResult(s, st, Some(action))
      case Proceed(s1, st1, newChar, last, allowCombo) =>
        var r := ScoreThenEnd(g, Reformat(g, s1, last, newChar), st1, newChar, allowCombo, now);
        StepResult(r.0, r.1, None)
  }

  /** The phases of a turn after the display is rebuilt: the key is scored and, unless
      that failed the round, the end of the passage is checked. */
  function ScoreThenEnd(g: Setup, s: RoundState, st: S.StatsData, newChar: bool, allowCombo: bool,
                        now: nat): (r: (RoundState, S.StatsData))
    requires Settled(g, s) && st.Valid() && now >= st.startTime
    ensures RoundInv(g, r.0) && r.1.Valid() && r.1.startTime <= now
  {
    var scored := Score(g, s, st, newChar, allowCombo);
    if scored.0.texts.complete then scored else End(g, scored.0, scored.1, now)
  }

  /** After the passage is finished the loop only waits for a way out. */
  function AfterComplete(key: Key): (exit: Option<PC.Action>)
    ensures exit.Some? <==> key.Ctrl? && key.c in {'c', 'n', 'p', 'r'}
  {
    match key
    case Ctrl(c) =>
      if c == 'c' then Some(PC.Quit)
      else if c == 'n' then Some(PC.NextPassage)
      else if c == 'p' then Some(PC.PreviousPassage)
      else if c == 'r' then Some(PC.RestartPassage)
      else None
    case _ => None
  }

  /** A new round satisfies the invariant. */
  lemma BeginInv(g: Setup)
    requires SetupOk(g)
    ensures RoundInv(g, Begin(g))
  {
    SetupFacts(g);
  }

  /** Ctrl-c, -n, -p and -r leave the round with quit, next, previous and restart, and
      change nothing. */
  lemma ExitKeys(g: Setup, s: RoundState, st: S.StatsData, c: char, now: nat)
    requires RoundInv(g, s) && !s.texts.complete && st.Valid()
    requires now >= 1 && now >= st.startTime
    ensures var r := Step(g, s, st, Press(Ctrl(c)), now);
            (r.exit.Some? <==> c in {'c', 'n', 'p', 'r'}) &&
            (c == 'c' ==> r.exit == Some(PC.Quit)) &&
            (c == 'n' ==> r.exit == Some(PC.NextPassage)) &&
            (c == 'p' ==> r.exit == Some(PC.PreviousPassage)) &&
            (c == 'r' ==> r.exit == Some(PC.RestartPassage))
  {
  }

  /** Keys that type nothing (control keys, Backspace and other keys) never touch the
      error count, the combo, the accuracy record or the mistaken words. */
  lemma NonTypingKeysKeepScore(g: Setup, s: RoundState, st: S.StatsData, key: Key, now: nat)
    requires RoundInv(g, s) && !s.texts.complete && st.Valid()
    requires now >= 1 && now >= st.startTime
    requires !key.Char?
    ensures var r := Step(g, s, st, Press(key), now);
            r.stats.errors == st.errors && r.stats.combo == st.combo &&
            r.stats.charProperlyTyped == st.charProperlyTyped &&
            r.round.mistakenWords == s.mistakenWords && r.round.gotFirstInput == s.gotFirstInput
  {
  }

  /** The readline edits: Ctrl-u empties the input, Ctrl-w drops its last word, Backspace
      and Ctrl-h drop its last character. The current unit only moves when that edit
      finishes the passage, and then nothing is left pending. */
  lemma EditKeys(g: Setup, s: RoundState, st: S.StatsData, key: Key, now: nat)
    requires RoundInv(g, s) && !s.texts.complete && st.Valid()
    requires now >= 1 && now >= st.startTime
    requires key == Ctrl('u') || key == Ctrl('w') || key == Ctrl('h') || key == Backspace
    ensures var r := Step(g, s, st, Press(key), now);
            var edited := if key == Ctrl('u') then []
                          else if key == Ctrl('w') then WP.GetAllInputMinusLastWord(g.u, s.userInput)
                          else Pop(s.userInput);
            r.exit == None &&
            ((r.round.userInput == edited && r.round.currentWordIdx == s.currentWordIdx &&
              !r.round.texts.complete) ||
             (r.round.texts.complete && r.round.userInput == [] &&
              r.round.currentWordIdx == s.currentWordIdx + 1))
  {
    var s2 := EditStep(g, s, st, key, now);
    EndOutcome(g, s2, st, now);
  }

  /** The turn of a readline edit up to the end-of-passage check: the edited input is
      redrawn and nothing is scored. */
  lemma EditStep(g: Setup, s: RoundState, st: S.StatsData, key: Key, now: nat) returns (s2: RoundState)
    requires RoundInv(g, s) && !s.texts.complete && st.Valid()
    requires now >= 1 && now >= st.startTime
    requires key == Ctrl('u') || key == Ctrl('w') || key == Ctrl('h') || key == Backspace
    ensures s2.userInput == (if key == Ctrl('u') then []
                             else if key == Ctrl('w') then WP.GetAllInputMinusLastWord(g.u, s.userInput)
                             else Pop(s.userInput))
    ensures s2.currentWordIdx == s.currentWordIdx && Settled(g, s2)
    ensures var e := End(g, s2, st, now);
            Step(g, s, st, Press(key), now) == StepResult(e.0, e.1, None)
  {
    var s1 := EditKeyOutcome(g, s, st, key, now);
    s2 := Reformat(g, s1, ' ', false);
    assert Score(g, s2, st, false, false) == (s2, st);
  }

  /** What `OnKey` makes of a readline edit: the edited input, nothing else touched. */
  lemma EditKeyOutcome(g: Setup, s: RoundState, st: S.StatsData, key: Key, now: nat)
    returns (s1: RoundState)
    requires RoundInv(g, s) && !s.texts.complete && st.Valid()
    requires now >= 1 && now >= st.startTime
    requires key == Ctrl('u') || key == Ctrl('w') || key == Ctrl('h') || key == Backspace
    ensures s1 == s.(userInput := if key == Ctrl('u') then []
                                  else if key == Ctrl('w') then WP.GetAllInputMinusLastWord(g.u, s.userInput)
                                  else Pop(s.userInput))
    ensures OnKey(g, s, st, key, now) == Proceed(s1, st, false, ' ', false)
  {
    s1 := s.(userInput := if key == Ctrl('u') then []
                          else if key == Ctrl('w') then WP.GetAllInputMinusLastWord(g.u, s.userInput)
                          else Pop(s.userInput));
  }

  /** The end-of-passage check either leaves the round in play untouched or finishes it,
      moving one unit on with nothing pending. */
  lemma EndOutcome(g: Setup, s: RoundState, st: S.StatsData, now: nat)
    requires Settled(g, s) && st.Valid() && now >= st.startTime
    ensures var e := End(g, s, st, now);
            (e.0.userInput == s.userInput && e.0.currentWordIdx == s.currentWordIdx &&
             !e.0.texts.complete) ||
            (e.0.texts.complete && e.0.userInput == [] &&
             e.0.currentWordIdx == s.currentWordIdx + 1)
  {
    if WP.DecideGameEnd(g.textMode, s.currentWordIdx, g.words, s.userInput) {
      assert End(g, s, st, now).0.texts.complete;
    }
  }

  /** A character that completes the current unit moves to the next one with an empty
      input and extends the combo; it can also finish the passage. */
  lemma CompletingChar(g: Setup, s: RoundState, st: S.StatsData, c: char, now: nat)
    requires RoundInv(g, s) && !s.texts.complete && st.Valid()
    requires now >= 1 && now >= st.startTime
    requires WP.WordCompleted(g.textMode, c, g.words[s.currentWordIdx], s.userInput)
    ensures var r := Step(g, s, st, Press(Char(c)), now);
            r.exit == None && r.round.userInput == [] && r.round.gotFirstInput &&
            (r.round.currentWordIdx == s.currentWordIdx + 1 ||
             (r.round.texts.complete && r.round.currentWordIdx == s.currentWordIdx + 2)) &&
            r.stats.errors == st.errors && r.stats.combo == st.combo + 1 &&
            r.round.mistakenWords == s.mistakenWords
  {
    I.CompletionIsErrorFree(g.textMode, c, g.words[s.currentWordIdx], s.userInput);
  }

  /** Newline and tab, unless they complete the unit, leave the input and the current unit
      as they were. */
  lemma IgnoredChar(g: Setup, s: RoundState, st: S.StatsData, c: char, now: nat)
    requires RoundInv(g, s) && !s.texts.complete && st.Valid()
    requires now >= 1 && now >= st.startTime
    requires c == '\n' || c == '\t'
    requires !WP.WordCompleted(g.textMode, c, g.words[s.currentWordIdx], s.userInput)
    ensures var r := Step(g, s, st, Press(Char(c)), now);
            r.exit == None && r.round.userInput == s.userInput &&
            r.round.currentWordIdx == s.currentWordIdx
  {
  }

  /** Any other character is appended to the input, unless it finishes the passage. */
  lemma AppendedChar(g: Setup, s: RoundState, st: S.StatsData, c: char, now: nat)
    requires RoundInv(g, s) && !s.texts.complete && st.Valid()
    requires now >= 1 && now >= st.startTime
    requires c != '\n' && c != '\t'
    requires !WP.WordCompleted(g.textMode, c, g.words[s.currentWordIdx], s.userInput)
    ensures var r := Step(g, s, st, Press(Char(c)), now);
            r.exit == None &&
            ((r.round.userInput == s.userInput + [c] && r.round.currentWordIdx == s.currentWordIdx) ||
             (r.round.texts.complete && r.round.userInput == [] &&
              r.round.currentWordIdx == s.currentWordIdx + 1))
  {
    var typed := TypeChar(g, s, c);
    assert typed == s.(userInput := s.userInput + [c]);
    var s2 := CharStep(g, s, st, c, now);
    var st1 := st.UpdateStartTime(now).UpdateWpm(typed.currentWordIdx, g.words, now);
    var sc := Score(g, s2, st1, true, true);
    assert sc.0.userInput == s.userInput + [c] && sc.0.currentWordIdx == s.currentWordIdx;
    if !sc.0.texts.complete {
      var e := End(g, sc.0, sc.1, now);
      if WP.DecideGameEnd(g.textMode, sc.0.currentWordIdx, g.words, sc.0.userInput) {
        assert e.0.texts.complete && e.0.userInput == [];
      } else {
        assert e.0 == sc.0;
      }
    }
  }

  /** A typed character that leaves the input in error for the current unit costs an
      error (the count grows by one as a `u16`) and breaks the combo. */
  lemma TypedCharError(g: Setup, s: RoundState, st: S.StatsData, c: char, now: nat)
    requires RoundInv(g, s) && !s.texts.complete && st.Valid()
    requires now >= 1 && now >= st.startTime
    requires var typed := TypeChar(g, s, c);
             typed.currentWordIdx < |g.words| &&
             !I.CheckLikeWord(g.words[typed.currentWordIdx], typed.userInput)
    ensures var r := Step(g, s, st, Press(Char(c)), now);
            r.stats.errors == (if st.errors + 1 == S.U16_MODULUS then 0 else st.errors + 1) &&
            r.stats.combo == 0
  {
    var typed := TypeChar(g, s, c);
    var s2 := CharStep(g, s, st, c, now);
    var st1 := st.UpdateStartTime(now).UpdateWpm(typed.currentWordIdx, g.words, now);
    assert s2.texts.error;
    ErrorScored(g, s2, st1, now, st.errors);
  }

  /** The same turn records the unit as mistaken. */
  lemma TypedCharMistaken(g: Setup, s: RoundState, st: S.StatsData, c: char, now: nat)
    requires RoundInv(g, s) && !s.texts.complete && st.Valid()
    requires now >= 1 && now >= st.startTime
    requires var typed := TypeChar(g, s, c);
             typed.currentWordIdx < |g.words| &&
             !I.CheckLikeWord(g.words[typed.currentWordIdx], typed.userInput)
    ensures var r := Step(g, s, st, Press(Char(c)), now);
            var typed := TypeChar(g, s, c);
            r.round.mistakenWords == s.mistakenWords + {g.words[typed.currentWordIdx]}
  {
    var typed := TypeChar(g, s, c);
    var s2 := CharStep(g, s, st, c, now);
    var st1 := st.UpdateStartTime(now).UpdateWpm(typed.currentWordIdx, g.words, now);
    assert s2.texts.error;
    ErrorScored(g, s2, st1, now, st.errors);
  }

  /** The same turn in instant-death mode ends the round failed (the display is the
      failed passage); in the other modes the round goes on. */
  lemma TypedCharErrorEnds(g: Setup, s: RoundState, st: S.StatsData, c: char, now: nat)
    requires RoundInv(g, s) && !s.texts.complete && st.Valid()
    requires now >= 1 && now >= st.startTime
    requires var typed := TypeChar(g, s, c);
             typed.currentWordIdx < |g.words| &&
             !I.CheckLikeWord(g.words[typed.currentWordIdx], typed.userInput)
    ensures var r := Step(g, s, st, Press(Char(c)), now);
            (g.gameMode == InstantDeath ==>
               r.round.texts == F.GetReformattedFailedTexts(g.textMode, g.words)) &&
            (g.gameMode != InstantDeath ==> !r.round.texts.complete)
  {
    var typed := TypeChar(g, s, c);
    var s2 := CharStep(g, s, st, c, now);
    var st1 := st.UpdateStartTime(now).UpdateWpm(typed.currentWordIdx, g.words, now);
    assert s2.texts.error;
    ErrorScored(g, s2, st1, now, st.errors);
  }

  /** The scoring and end-of-passage phases of a turn whose input is in error. */
  lemma ErrorScored(g: Setup, s2: RoundState, st1: S.StatsData, now: nat, errors: nat)
    requires Settled(g, s2) && s2.currentWordIdx < |g.words| && s2.texts.error
    requires st1.Valid() && now >= st1.startTime && st1.errors == errors
    ensures var r := ScoreThenEnd(g, s2, st1, true, true, now);
            r.1.errors == (if errors + 1 == S.U16_MODULUS then 0 else errors + 1) &&
            r.1.combo == 0 &&
            r.0.mistakenWords == s2.mistakenWords + {g.words[s2.currentWordIdx]} &&
            (g.gameMode == InstantDeath ==>
               r.0.texts == F.GetReformattedFailedTexts(g.textMode, g.words)) &&
            (g.gameMode != InstantDeath ==> !r.0.texts.complete)
  {
    var sc := Score(g, s2, st1, true, true);
    if g.gameMode != InstantDeath {
      assert sc.0 == s2.(mistakenWords := sc.0.mistakenWords);
      if g.textMode == WP.Latin {
        assert g.words[s2.currentWordIdx] != s2.userInput;
      }
      assert !WP.DecideGameEnd(g.textMode, sc.0.currentWordIdx, g.words, sc.0.userInput);
    }
  }

  /** A typed character that leaves the input fine (or finishes a NonLatin passage)
      extends the combo by one and costs nothing. */
  lemma TypedCharCorrect(g: Setup, s: RoundState, st: S.StatsData, c: char, now: nat)
    requires RoundInv(g, s) && !s.texts.complete && st.Valid()
    requires now >= 1 && now >= st.startTime
    requires var typed := TypeChar(g, s, c);
             !(typed.currentWordIdx < |g.words| &&
               !I.CheckLikeWord(g.words[typed.currentWordIdx], typed.userInput))
    ensures var r := Step(g, s, st, Press(Char(c)), now);
            r.stats.errors == st.errors && r.stats.combo == st.combo + 1 &&
            r.round.mistakenWords == s.mistakenWords
  {
    var typed := TypeChar(g, s, c);
    var s2 := CharStep(g, s, st, c, now);
    var st1 := st.UpdateStartTime(now).UpdateWpm(typed.currentWordIdx, g.words, now);
    assert st1.errors == st.errors && st1.combo == st.combo;
    assert !s2.texts.error;
  }

  /** The turn of a typed character, phase by phase: the character is applied, the display
      rebuilt, the key scored and the end of the passage checked. Returns the rebuilt
      state. */
  lemma CharStep(g: Setup, s: RoundState, st: S.StatsData, c: char, now: nat) returns (s2: RoundState)
    requires RoundInv(g, s) && !s.texts.complete && st.Valid()
    requires now >= 1 && now >= st.startTime
    ensures var typed := TypeChar(g, s, c);
            s2.currentWordIdx == typed.currentWordIdx && s2.userInput == typed.userInput &&
            s2.mistakenWords == s.mistakenWords
    ensures var typed := TypeChar(g, s, c);
            var st1 := st.UpdateStartTime(now).UpdateWpm(typed.currentWordIdx, g.words, now);
            st1.Valid() && now >= st1.startTime && Settled(g, s2) &&
            st1.errors == st.errors && st1.combo == st.combo &&
            var r := ScoreThenEnd(g, s2, st1, true, true, now);
            Step(g, s, st, Press(Char(c)), now) == StepResult(r.0, r.1, None)
  {
    var typed := TypeChar(g, s, c);
    var st1 := st.UpdateStartTime(now).UpdateWpm(typed.currentWordIdx, g.words, now);
    assert OnKey(g, s, st, Char(c), now) == Proceed(typed.(gotFirstInput := true), st1, true, c, true);
    s2 := Reformat(g, typed.(gotFirstInput := true), c, true);
  }

  /** Once a typed character makes `decide_game_end` hold, the round is complete: the
      display is the finished passage, the index moves one past, and the input is
      cleared. */
  lemma FinishingChar(g: Setup, s: RoundState, st: S.StatsData, c: char, now: nat)
    requires RoundInv(g, s) && !s.texts.complete && st.Valid()
    requires now >= 1 && now >= st.startTime
    requires var typed := TypeChar(g, s, c);
             WP.DecideGameEnd(g.textMode, typed.currentWordIdx, g.words, typed.userInput)
    ensures var r := Step(g, s, st, Press(Char(c)), now);
            var typed := TypeChar(g, s, c);
            r.round.texts == F.GetReformattedCompleteTexts(g.textMode, g.words) &&
            r.round.currentWordIdx == typed.currentWordIdx + 1 && r.round.userInput == []
  {
    var typed := TypeChar(g, s, c);
    if g.textMode == WP.Latin {
      assert I.CheckLikeWord(g.words[typed.currentWordIdx], typed.userInput);
    }
    var s2 := CharStep(g, s, st, c, now);
    var st1 := st.UpdateStartTime(now).UpdateWpm(typed.currentWordIdx, g.words, now);
    var sc := Score(g, s2, st1, true, true);
    assert sc.0 == s2;
  }

  /** A timeout only refreshes the WPM, and only once the player has started typing. */
  lemma TimeoutOnlyRefreshesWpm(g: Setup, s: RoundState, st: S.StatsData, now: nat)
    requires RoundInv(g, s) && !s.texts.complete && st.Valid()
    requires now >= 1 && now >= st.startTime
    ensures var r := Step(g, s, st, Timeout, now);
            r.round == s && r.exit == None && r.stats == st.(wpm := r.stats.wpm) &&
            (!s.gotFirstInput ==> r.stats == st)
  {
  }

  /** The loop of `play_game`: the state of a round as local variables that each turn
      updates in place, and the session statistics object. */
  class Round {
    const setup: Setup
    const stats: S.Stats
    var texts: F.FormattedTexts
    var userInput: string
    var mistakenWords: set<string>
    var currentWordIdx: nat
    var gotFirstInput: bool

    function Data(): RoundState
      reads this
    {
      RoundState(texts, userInput, mistakenWords, currentWordIdx, gotFirstInput)
    }

    /** The set-up part of `play_game`. */
    constructor (g: Setup, stats: S.Stats)
      requires SetupOk(g)
      ensures setup == g && this.stats == stats && Data() == Begin(g)
      ensures RoundInv(setup, Data())
    {
      setup := g;
      this.stats := stats;
      texts := F.FormattedTexts(seq(|g.passage|, i requires 0 <= i < |g.passage| => F.Span([g.passage[i]], F.Raw)),
                                [], false, false);
      userInput := [];
      mistakenWords := {};
      currentWordIdx := 0;
      gotFirstInput := false;
      new;
      BeginInv(g);
    }

    /** One turn of the loop for a round still in play. */
    method HandleEvent(event: Event, now: nat) returns (exit: Option<PC.Action>)
      requires RoundInv(setup, Data()) && !texts.complete && stats.Valid()
      requires now >= 1 && now >= stats.startTime
      modifies this, stats
      ensures var r := Step(setup, old(Data()), old(stats.Data()), event, now);
              Data() == r.round && stats.Data() == r.stats && exit == r.exit
      ensures exit.None? ==> RoundInv(setup, Data()) && stats.Valid()
    {
      match event {
        case Timeout =>
          if gotFirstInput {
            stats.UpdateWpm(currentWordIdx, setup.words, now);
          }
          exit := None;
        case Press(key) =>
          exit := HandlePress(key, now);
      }
    }

    /** A turn that received a key. */
    method HandlePress(key: Key, now: nat) returns (exit: Option<PC.Action>)
      requires RoundInv(setup, Data()) && !texts.complete && stats.Valid()
      requires now >= 1 && now >= stats.startTime
      modifies this, stats
      ensures var r := Step(setup, old(Data()), old(stats.Data()), Press(key), now);
              Data() == r.round && stats.Data() == r.stats && exit == r.exit
    {
      ghost var outcome := OnKey(setup, Data(), stats.Data(), key, now);
      var newChar, last, allowCombo;
      exit, newChar, last, allowCombo := ApplyKey(key, now);
      if exit.Some? {
        return;
      }
      Rebuild(last, newChar);
      ghost var rebuilt := Data();
      assert rebuilt == Reformat(setup, outcome.s, outcome.last, outcome.newChar);
      ScoreThenEndKey(newChar, allowCombo, now);
    }

    /** Scoring the key, then `decide_game_end` unless the round failed. */
    method ScoreThenEndKey(newChar: bool, allowCombo: bool, now: nat)
      requires Settled(setup, Data()) && stats.Valid() && now >= stats.startTime
      modifies this`texts, this`mistakenWords, this`currentWordIdx, this`userInput, stats
      ensures var r := ScoreThenEnd(setup, old(Data()), old(stats.Data()), newChar, allowCombo, now);
              Data() == r.0 && stats.Data() == r.1
    {
      var failed := ScoreKey(newChar, allowCombo);
      if !failed {
        EndIfDone(now);
      }
    }

    /** `decide_game_end` and what follows it. */
    method EndIfDone(now: nat)
      requires Settled(setup, Data()) && stats.Valid() && now >= stats.startTime
      modifies this`texts, this`currentWordIdx, this`userInput, stats
      ensures var r := End(setup, old(Data()), old(stats.Data()), now);
              Data() == r.0 && stats.Data() == r.1
    {
      ghost var r := End(setup, Data(), stats.Data(), now);
      if WP.DecideGameEnd(setup.textMode, currentWordIdx, setup.words, userInput) {
        assert r.0 == Data().(texts := F.GetReformattedCompleteTexts(setup.textMode, setup.words),
                              currentWordIdx := currentWordIdx + 1, userInput := []);
        assert r.1 == stats.Data().UpdateWpm(currentWordIdx + 1, setup.words, now);
        FinishRound(now);
      } else {
        assert r == (Data(), stats.Data());
      }
    }

    /** The finished passage: redrawn as complete, the index past the end, the WPM taken
        once more, the input cleared. */
    method FinishRound(now: nat)
      requires stats.Valid() && now >= stats.startTime
      modifies this`texts, this`currentWordIdx, this`userInput, stats
      ensures Data() == old(Data()).(texts := F.GetReformattedCompleteTexts(setup.textMode, setup.words),
                                     currentWordIdx := old(currentWordIdx) + 1, userInput := [])
      ensures stats.Data() == old(stats.Data()).UpdateWpm(old(currentWordIdx) + 1, setup.words, now)
    {
      texts := F.GetReformattedCompleteTexts(setup.textMode, setup.words);
      currentWordIdx := currentWordIdx + 1;
      stats.UpdateWpm(currentWordIdx, setup.words, now);
      userInput := [];
    }

    /** The `match` on the key. */
    method ApplyKey(key: Key, now: nat) returns (exit: Option<PC.Action>, newChar: bool, last: char,
                                                 allowCombo: bool)
      requires RoundInv(setup, Data()) && !texts.complete && stats.Valid()
      requires now >= 1 && now >= stats.startTime
      modifies this, stats
      ensures var o := OnKey(setup, old(Data()), old(stats.Data()), key, now);
              (o.Exit? ==> exit == Some(o.action) && Data() == old(Data()) &&
                           stats.Data() == old(stats.Data())) &&
              (o.Proceed? ==> exit == None && Data() == o.s && stats.Data() == o.stats &&
                              newChar == o.newChar && last == o.last && allowCombo == o.allowCombo)
      ensures stats.Valid()
    {
      exit, newChar, last, allowCombo := None, false, ' ', false;
      match key {
        case Ctrl(c) =>
          if c == 'c' {
            exit := Some(PC.Quit);
          } else if c == 'n' {
            exit := Some(PC.NextPassage);
          } else if c == 'p' {
            exit := Some(PC.PreviousPassage);
          } else if c == 'r' {
            exit := Some(PC.RestartPassage);
          } else if c == 'u' {
            userInput := [];
          } else if c == 'w' {
            userInput := WP.GetAllInputMinusLastWord(setup.u, userInput);
          } else if c == 'h' {
            PopInput();
          }
        case Backspace =>
          PopInput();
        case OtherKey =>
        case Char(c) =>
          newChar := true;
          last := c;
          stats.UpdateStartTime(now);
          TypeCharacter(c);
          gotFirstInput := true;
          stats.UpdateWpm(currentWordIdx, setup.words, now);
          allowCombo := true;
      }
    }

    /** `String::pop` on the input. */
    method PopInput()
      modifies this`userInput
      ensures userInput == Pop(old(userInput))
    {
      if userInput != [] {
        userInput := userInput[..|userInput| - 1];
      }
    }

    /** A typed character: completing the unit, ignored, or appended. */
    method TypeCharacter(c: char)
      requires RoundInv(setup, Data()) && !texts.complete
      modifies this`texts, this`currentWordIdx, this`userInput
      ensures Data() == TypeChar(setup, old(Data()), c)
    {
      var word := setup.words[currentWordIdx];
      if WP.WordCompleted(setup.textMode, c, word, userInput) {
        if !setup.alwaysFull {
          LineCut(setup, currentWordIdx);
          texts := texts.(passage := WP.GetUpdatedTexts(setup.textMode, texts.passage, word));
        }
        currentWordIdx := currentWordIdx + 1;
        userInput := [];
      } else if c == '\n' || c == '\t' {
      } else {
        userInput := userInput + [c];
      }
    }

    /** The display is rebuilt while a unit is left to type. */
    method Rebuild(last: char, newChar: bool)
      requires Mid(setup, Data())
      modifies this`texts
      ensures Data() == Reformat(setup, old(Data()), last, newChar)
    {
      if currentWordIdx >= |setup.words| {
      } else if setup.alwaysFull {
        UnitFits(setup, MaybeDecremented(setup, Data(), newChar));
        texts := F.GetFormattedTexts(setup.textMode, setup.words, userInput, currentWordIdx, last,
                                     newChar, texts.passage);
      } else {
        UnitFits(setup, currentWordIdx);
        texts := F.GetFormattedTextsLineMode(setup.textMode, setup.words[currentWordIdx], userInput,
                                             last, newChar, texts.passage);
      }
    }

    /** Errors, mistaken words and the combo; reports whether instant death ended the
        round. */
    method ScoreKey(newChar: bool, allowCombo: bool) returns (failed: bool)
      requires Settled(setup, Data()) && stats.Valid()
      modifies this`texts, this`mistakenWords, stats
      ensures var r := Score(setup, old(Data()), old(stats.Data()), newChar, allowCombo);
              Data() == r.0 && stats.Data() == r.1 && failed == r.0.texts.complete
      ensures stats.Valid()
    {
      var letter := I.GetTryingLetterIdx(setup.textMode, setup.words, currentWordIdx, userInput);
      failed := false;
      if texts.error && newChar {
        stats.IncrementErrors(letter);
        mistakenWords := mistakenWords + {setup.words[currentWordIdx]};
        if setup.gameMode == InstantDeath {
          texts := F.GetReformattedFailedTexts(setup.textMode, setup.words);
          failed := true;
        }
      } else if allowCombo {
        stats.IncrementCombo(letter);
      }
    }
  }
}
