# terminal-typeracer: the typing-game core in Dafny

This project models the core of terminal-typeracer, a typing game that runs in the terminal.
The player is shown a passage and types it. The game colours the word being typed, counts
errors, combos and per-letter accuracy, computes words per minute and keeps a short history
of passages to go back and forth in. The model covers these parts:

- the split of a passage into typing units. Latin passages split into words separated by
  spaces; NonLatin passages, whose first character is wide, split into grapheme clusters.
  Both splits come with the joins that undo them.
- the word rules: when a word is complete, when the passage is complete, the readline
  `C-w` edit, and the line-mode display cut.
- the indexer: whether the input is still on track, where a unit starts in the passage,
  and which letter slot the player is attempting.
- the formatter: the colours of the current unit and of the input, and the
  finished and failed displays.
- the statistics object: WPM by both formulas, errors, the combo, the best combo and the
  accuracy record.
- the passage controller: a ring of passages, with next, previous, restart and the
  user's own initial passage.
- one turn of the game loop: the key match, the redraw, the scoring and the
  end-of-passage check, and the keys accepted after the passage is finished.
- the game-mode ring and the integer codes used to store modes.
- the small pure rules: which passages are stored and under which key, config
  validation, the graph-screen mode cycle, and the terminal-size check.

Pure code is modelled as functions and lemmas. The objects whose fields the source updates in
place are classes: `Stats.Stats`, `PassageController.Controller` and the loop state
`Game.Round`. Their methods are proved against pure functions over a snapshot datatype
(`StatsData`, `History`, `RoundState`). The loops of the source are methods with loop
invariants, each proved equal to a specification function.

Grapheme segmentation (Unicode Standard Annex #29) and display width (Unicode Standard Annex
#11) come from external libraries. They are a parameter `Unicode` of two functions. The only
thing assumed about it (`Split.Lawful`) is that the clusters of a string are non-empty and
concatenate back to the string.

## Model

| member | source | states |
|---|---|---|
| Split.SplitOnSpace | src/game/split/mod.rs:4-12 | `split(' ')` gives one piece more than there are spaces. No piece contains a space, and joining the pieces with single spaces gives the input back. |
| Split.SplitOnSpaceJoin | src/game/split/mod.rs:4-12 | The other direction of that round trip: space-free pieces joined with single spaces split back into the same pieces. |
| Split.ToWords | src/game/split/mod.rs:4-12 | `to_words` returns at least one unit. For a wide passage the units are non-empty clusters that concatenate to the passage. Otherwise they are the `split(' ')` pieces, which rejoin with spaces to the passage. |
| Split.IsWideCharacter | src/game/split/mod.rs:14-21 | The first grapheme cluster is a non-empty prefix of the passage, and the passage counts as wide exactly when that cluster is two columns wide. |
| Split.SplitOnSpaceExample | src/game/split/mod.rs:28-33 | "the quick brown fox" splits into its four words. |
| Split.ToWordsLatinExample | src/game/split/mod.rs:28-33 | `to_words` on the Latin example gives the four words. |
| Split.ToWordsWideExample | src/game/split/mod.rs:36-41 | `to_words` on a wide passage gives one unit per cluster. |
| Split.SplitWhitespace | src/game/word_processing/mod.rs:14-21 | The whitespace-collapsing split yields non-empty, whitespace-free words, and the first word starts at the first character when that character is not whitespace. |
| Split.SplitWhitespaceSqueeze | src/game/word_processing/mod.rs:14-21 | The words of the split, joined by single spaces, are the input with leading and trailing whitespace dropped and every inner whitespace run replaced by one space. |
| Split.SplitWhitespaceJoin | src/game/word_processing/mod.rs:14-21 | Non-empty whitespace-free words joined by single spaces split back into the same words. |
| Split.SplitWhitespaceRoundTrip | src/game/word_processing/mod.rs:14-21 | Splitting, rejoining and splitting again gives the first split. |
| Split.ToWordsCollapsing | src/game/word_processing/mod.rs:14-21 | The `to_words` the `C-w` edit uses gives nothing for an empty input. Wide clusters concatenate to the input. Narrow words are non-empty and whitespace-free, and joined by single spaces they are the input with its whitespace collapsed and trimmed. |
| WordProcessing.GetGameMode | src/game/word_processing/mod.rs:41-47 | A passage is played NonLatin exactly when its first cluster is wide. |
| WordProcessing.UnitsRejoin | src/game/split/mod.rs:4-21 | The units of a passage, joined with the separator of its own text mode, give the passage back. |
| WordProcessing.GetAllInputMinusLastWord | src/game/word_processing/mod.rs:14-21 | `C-w` keeps an input that has no words. For wide input, the result followed by the last cluster is the input. For narrow input, the result is the input's words minus the last one, joined by single spaces, and it splits back into those words. |
| WordProcessing.SplitWhitespaceExample | src/game/word_processing/mod.rs:357-373 | "this is a test " splits into four words; the trailing space makes no unit. |
| WordProcessing.JoinSpaceExample | src/game/word_processing/mod.rs:357-373 | Joining ["this", "is", "a"] gives "this is a". |
| WordProcessing.MinusLastWordLatinExample | src/game/word_processing/mod.rs:357-373 | `C-w` on "this is a test " gives "this is a". |
| WordProcessing.MinusLastWordEmptyExample | src/game/word_processing/mod.rs:14-21 | `C-w` on an empty input leaves it empty. |
| WordProcessing.MinusLastWordWideExample | src/game/word_processing/mod.rs:376-384 | `C-w` on "你好" gives "你". |
| WordProcessing.GetUpdatedTexts | src/game/word_processing/mod.rs:63-73 | The line-mode cut drops exactly the completed word and its space (Latin) or one unit (NonLatin) from the front, and keeps the rest in order. |
| WordProcessing.DecideGameEnd | src/game/word_processing/mod.rs:26-37 | A Latin round ends exactly when the completed words followed by the input make up the whole passage; a NonLatin round exactly when every unit is completed and no input is pending. |
| WordProcessing.WordCompleted | src/game/word_processing/mod.rs:51-60 | A completed word was typed without error. In Latin mode it is a space typed after an input that is a prefix of the word as long as the word, that is, the whole word; in NonLatin mode the keystroke completes exactly the missing last character of the unit. |
| WordProcessing.GameEndExamples | src/game/word_processing/mod.rs:131-205 | The cases of the `decide_game_end` examples in both text modes. |
| WordProcessing.WordCompletedExamples | src/game/word_processing/mod.rs:231-302 | The cases of the `word_completed` examples in both text modes. |
| WordProcessing.UpdatedTextsExamples | src/game/word_processing/mod.rs:305-354 | Line mode drops "brown " from "brown fox", and one unit from a NonLatin passage. |
| Indexer.CheckLikeWord | src/game/indexer/mod.rs:5-14 | The input is error-free exactly when it is a prefix of the word. The empty input always is, and an input longer than the word never is. |
| Indexer.CheckWord | src/game/indexer/mod.rs:16-18 | Two strings match exactly when they have the same length and agree character by character. |
| Indexer.GetStartingIdx | src/game/indexer/mod.rs:28-34 | The loop returns the offset of unit `k`: the units before it, each followed by its separator, with `take` stopping at the end. |
| Indexer.LatinOffset | src/game/indexer/mod.rs:28-34 | A Latin offset is the length of the earlier units joined by spaces, plus the space after them. |
| Indexer.NonLatinOffset | src/game/indexer/mod.rs:28-34 | A NonLatin offset is the length of the earlier units concatenated. |
| Indexer.StartingIdxLocates | src/game/indexer/mod.rs:28-34 | The offset of unit `k` points at that very unit inside the passage it was split from. |
| Indexer.LastUnitEndsPassage | src/game/indexer/mod.rs:28-34 | The last unit ends where the passage ends. |
| Indexer.StartingIdxExample | src/game/indexer/mod.rs:84-89 | Offsets 0, 5 and 8 for ["this", "is", "a", "vector"]. |
| Indexer.GameEndCoversPassage | src/game/word_processing/mod.rs:26-37 | When `decide_game_end` holds, the current offset plus the pending input reach exactly the end of the passage. |
| Indexer.CompletionIsErrorFree | src/game/word_processing/mod.rs:51-60 | Only an error-free input can complete a unit. A NonLatin unit is completed by its last character. |
| Indexer.GetTryingLetterIdx | src/game/indexer/mod.rs:37-55 | The loop returns the unit's offset plus the number of letters matched before the first mismatch, never counting the input's last character. |
| Indexer.TryingLetterIdxBounds | src/game/indexer/mod.rs:37-55 | The attempted slot lies between the unit's offset and the input's last character, inside the unit. Everything before it was typed right. |
| Indexer.TryingLetterIdxOnTrack | src/game/indexer/mod.rs:37-55 | For error-free input the attempted slot is the slot of the last typed character, so a retyped letter is scored in the same slot. |
| Indexer.TryingLetterIdxStuck | src/game/indexer/mod.rs:37-55 | Once the input is wrong, typing more does not move the attempted slot. |
| Indexer.TryingLetterIdxExample | src/game/indexer/mod.rs:92-101 | After "qui" on "quick", the slot is 6. |
| Indexer.TryingLetterIdxAfterMistake | src/game/indexer/mod.rs:104-114 | After "quisssssssssss", the slot stays at 7. |
| Indexer.TryingLetterIdxOnMistake | src/game/indexer/mod.rs:117-128 | After "quisk", the slot stays at 7: a right letter after a wrong one does not advance. |
| Indexer.MaybeDecrementedIdx | src/game/formatter/mod.rs:48-50 | The index steps back by one exactly for a correct new NonLatin keystroke past unit 0, and is unchanged otherwise. |
| Formatter.GetFormattedWords | src/game/formatter/mod.rs:109-193 | The three loops produce the unit's spans and the input's spans as the colouring rules specify. |
| Formatter.FormatInput | src/game/formatter/mod.rs:128-147 | The input loop styles every typed character by the error flag, shows a space as '.', and appends the cursor. |
| Formatter.GreenRun | src/game/formatter/mod.rs:149-169 | The green loop stops where `decide_break` says, after exactly the green count, with one green span per character. |
| Formatter.DecideBreak | src/game/formatter/mod.rs:195-221 | In Latin mode, past a matching prefix the green run breaks at `dex` exactly when that is where word and input first differ. In NonLatin mode it breaks exactly when the unit is not all green. |
| Formatter.GreenCount | src/game/formatter/mod.rs:149-169 | In Latin mode the green characters are a common prefix of word and input followed by a mismatch or an end. In NonLatin mode the unit is all green or not green at all. |
| Formatter.FormatRest | src/game/formatter/mod.rs:171-190 | The rest of the unit: the next character highlighted (red on error, blue otherwise), then plain text. |
| Formatter.SpansShowText | src/game/formatter/mod.rs:109-193 | Styling never changes the text. The unit's spans show the unit; the input's spans show the input, with spaces as '.', and then the cursor. |
| Formatter.InputErrorStyle | src/game/formatter/mod.rs:125-147 | Every input character is white on red exactly when the input is not a prefix of the unit. The cursor is last. |
| Formatter.LatinWordColours | src/game/formatter/mod.rs:149-212 | In Latin mode the green characters are exactly the longest common prefix with the input. The next one is blue while on track and red at the first mismatch, and the rest are plain. |
| Formatter.NonLatinWordColours | src/game/formatter/mod.rs:214-221 | A NonLatin unit turns green exactly on a fresh keystroke equal to the whole unit, with no input pending. |
| Formatter.GetFormattedTexts | src/game/formatter/mod.rs:39-71 | The error flag is decided on the current unit. That unit, or the one just completed in NonLatin mode, is redrawn over its own stretch of the passage; the rest of the passage is untouched. |
| Formatter.GetFormattedTextsLineMode | src/game/formatter/mod.rs:74-98 | In line mode the unit is redrawn over the front of the display, and the error flag is decided on it. |
| Formatter.MaybeAddSpace | src/game/formatter/mod.rs:250-256 | The separator after a finished unit is as long as the mode's separator and is made of spaces. |
| Formatter.GetFullyReformattedTexts | src/game/formatter/mod.rs:223-248 | One span per unit in the given colour, each followed by its separator, then a single end-string span. The display is complete. |
| Formatter.ReformattedShowsPassage | src/game/formatter/mod.rs:223-248 | The redrawn passage shows the whole passage again, plus one trailing space in Latin mode. |
| Formatter.GetReformattedCompleteTexts | src/game/formatter/mod.rs:24-29 | A finished passage is all green, says "COMPLETE" and has no error. |
| Formatter.GetReformattedFailedTexts | src/game/formatter/mod.rs:31-36 | A failed passage is all red, says "FAIL" and has the error flag set. |
| Stats.WpmFor | src/stats/mod.rs:73-89 | WPM is the least whole number at or above typed-words per minute: characters over 5, or units (legacy). It is saturated to `u64`, and a zero elapsed time gives 0 only when nothing was typed. |
| Stats.UpdatedAccuracy | src/stats/mod.rs:128-139 | A slot past the end appends one entry. An existing slot takes the new value only while it is still right, so a slot once wrong stays wrong; other slots are unchanged. |
| Stats.MistakesNeverDecrease | src/stats/mod.rs:128-139 | An accuracy update never lowers the number of mistyped slots, and a right keystroke leaves it unchanged. |
| Stats.AccuracyRange | src/stats/mod.rs:111-126 | Accuracy is a percentage. It is 100 exactly when no slot was mistyped and 0 exactly when every slot was. |
| Stats.StatsData.UpdateWpm | src/stats/mod.rs:73-89 | Only the WPM changes. It becomes the WPM law's value for the units typed so far over the time since the start, and it fits in a `u64`. |
| Stats.StatsData.UpdateStartTime | src/stats/mod.rs:92-96 | The first keystroke starts the clock one second in the past; later ones leave everything alone. |
| Stats.StatsData.IncrementErrors | src/stats/mod.rs:99-103 | One more error (as a `u16`) and the combo broken. The slot is marked wrong, the other fields are unchanged, and validity is kept. |
| Stats.StatsData.IncrementCombo | src/stats/mod.rs:105-109 | The combo grows by one and the best combo keeps up with it. The slot is marked right unless it was ever wrong, and validity is kept. |
| Stats.StatsData.Reset | src/stats/mod.rs:146-152 | Everything restarts from zero except the WPM formula and the best combo. |
| Stats.NewStats | src/stats/mod.rs:57-68 | A new statistics record is valid, with an empty accuracy record and no start time. |
| Stats.ModernWpmExample | src/stats/mod.rs:191-213 | 10 characters in 1 second give 120 WPM; 20 in 10 seconds give 24. |
| Stats.LegacyWpmExample | src/stats/mod.rs:216-235 | 2 units in 1 second give 120 WPM; 4 in 10 seconds give 24. |
| Stats.ErrorsExample | src/stats/mod.rs:238-243 | One error on a new record counts one. |
| Stats.AllRightExample | src/stats/mod.rs:255-269 | Five right letters mark five slots right, for 100 percent accuracy. |
| Stats.AllWrongExample | src/stats/mod.rs:272-285 | Five wrong letters mark five slots wrong, for 0 percent accuracy. |
| Stats.NoOverwriteIncorrectExample | src/stats/mod.rs:288-303 | Retyping mistyped slots correctly leaves them wrong, for 0 percent accuracy. |
| Stats.Stats.constructor | src/stats/mod.rs:57-68 | The object starts as the new record. |
| Stats.Stats.UpdateWpm | src/stats/mod.rs:73-89 | The object's new state is the snapshot update. |
| Stats.Stats.UpdateStartTime | src/stats/mod.rs:92-96 | The object's new state is the snapshot update. |
| Stats.Stats.IncrementErrors | src/stats/mod.rs:99-103 | The object's new state is the snapshot update; validity is kept. |
| Stats.Stats.IncrementCombo | src/stats/mod.rs:105-109 | The object's new state is the snapshot update; validity is kept. |
| Stats.Stats.UpdateAccuracy | src/stats/mod.rs:128-139 | The record is pushed or overwritten in place as `UpdatedAccuracy` specifies. |
| Stats.Stats.GetTypingAccuracy | src/stats/mod.rs:111-126 | The counting loop returns the accuracy of the record (0 when empty). |
| Stats.Stats.Reset | src/stats/mod.rs:146-152 | The object's new state is the snapshot reset. |
| Stats.Stats.GetWpm | src/stats/mod.rs:167-169 | The WPM read back fits in a `u64`. |
| Stats.Stats.GetHighestCombo | src/stats/mod.rs:171-173 | The best combo is never below the current combo. |
| Stats.Stats.GetLegacyWpm | src/stats/mod.rs:175-178 | Reports which WPM law the snapshot uses. |
| Stats.Stats.GetStartTime | src/stats/mod.rs:180-183 | Reports the snapshot's start time. |
| PassageController.Next | src/passage_controller/mod.rs:97-127 | The first call fetches without moving. Later calls advance the index around the ring, never shrink the ring, and keep every slot except the current one. |
| PassageController.Previous | src/passage_controller/mod.rs:129-141 | Only the index moves: one step back around the ring, but never past the oldest passage kept. |
| PassageController.WithInitialPassage | src/passage_controller/mod.rs:147-153 | The user's text is appended, titled "User input", and nothing else changes. |
| PassageController.Retrieve | src/passage_controller/mod.rs:88-95 | Restart and quit change nothing; next and previous behave as above. |
| PassageController.RetrieveKeepsInv | src/passage_controller/mod.rs:88-141 | Every action keeps both indices inside the ring, so the returned slot always exists. |
| PassageController.RetrieveKeepsBounded | src/passage_controller/mod.rs:97-127 | Without a passage of the user's own, the ring never grows past its capacity. |
| PassageController.WriteInitialKeepsInv | src/passage_controller/mod.rs:147-153 | Writing the initial passage keeps the invariant. |
| PassageController.FirstNext | src/passage_controller/mod.rs:103-105 | The first "next" fetches one passage and returns it from slot 0. |
| PassageController.InitialPassagePlayedFirst | src/passage_controller/mod.rs:147-153 | A user passage is played first, and the first fetch is queued behind it. |
| PassageController.NextEvictsOldest | src/passage_controller/mod.rs:112-119 | Reaching the oldest slot moves the oldest index on and overwrites that slot with a fresh passage; the full ring does not grow. |
| PassageController.NextFillsEmptySlot | src/passage_controller/mod.rs:120-124 | Reaching the first empty slot of a ring that is not yet full fills it with a fresh passage. |
| PassageController.NextReplaysHistory | src/passage_controller/mod.rs:106-125 | Any other slot is replayed from history: nothing is fetched and only the index moves. |
| PassageController.PreviousThenNext | src/passage_controller/mod.rs:97-141 | Going back and then forward returns to exactly the same history, with no fetch. |
| PassageController.PreviousAtOldest | src/passage_controller/mod.rs:452-466 | At the oldest passage "previous" changes nothing, however often it is repeated. |
| PassageController.PreviousSteps | src/passage_controller/mod.rs:129-141 | "previous" steps back by one, and from slot 0 to the last slot. |
| PassageController.NextsFromNew | src/passage_controller/mod.rs:97-127 | After `n` "next" actions from a new controller, the ring holds min(n, size) passages and the index is at the newest slot. Once the ring is full, the oldest slot is the one after the index. |
| PassageController.OverwriteExample | src/passage_controller/mod.rs:438-449 | With capacity 5, 4000 "next" actions leave exactly 5 passages. |
| PassageController.HistoryIntegrityExample | src/passage_controller/mod.rs:469-498 | Going back twice and forward twice revisits the same passages, and distinct fetches give distinct passages. |
| PassageController.WrapIsMod | src/passage_controller/mod.rs:107 | The ring step used by the model is the source's `% history_size`. |
| PassageController.Controller.constructor | src/passage_controller/mod.rs:39-51 | The controller starts empty, first-run, with both indices 0. |
| PassageController.Controller.GetNewPassage | src/passage_controller/mod.rs:368-419 | The n-th fetch returns the source's n-th passage. |
| PassageController.Controller.RetrievePassage | src/passage_controller/mod.rs:88-95 | The object's new state is `Retrieve` of the old one, and the returned passage is the current slot. |
| PassageController.Controller.RetrieveNextPassage | src/passage_controller/mod.rs:97-127 | The object's new state is `Next` of the old one, and the returned passage is the current slot. |
| PassageController.Controller.Advance | src/passage_controller/mod.rs:106-125 | The step after the first fetch updates the fields in place exactly as `Next` specifies. |
| PassageController.Controller.RetrievePreviousPassage | src/passage_controller/mod.rs:129-141 | The object's new state is `Previous` of the old one, and the returned passage is the current slot. |
| PassageController.Controller.WriteInitialPassage | src/passage_controller/mod.rs:147-153 | The object's new state is `WithInitialPassage` of the old one. |
| Game.GameMode.Next | src/game/mod.rs:46-52 | `next` always returns a different mode. |
| Game.GameMode.Prev | src/game/mod.rs:54-60 | `prev` always returns a different mode. |
| Game.ModeRing | src/game/mod.rs:40-60 | The modes form a ring of three: three `next`s come back, and `prev` undoes `next`. |
| Game.ToI64 | src/game/mod.rs:74-82 | Stored codes are 0 to 2, with 0 meaning Default. |
| Game.FromI64 | src/game/mod.rs:83-91 | 1 is InstantDeath, 2 is Training, and any other code is Default. |
| Game.CodeRoundTrip | src/game/mod.rs:74-91 | Decoding an encoded mode gives it back. |
| Game.MakeSetup | src/game/mod.rs:126-128 | A round's units and text mode are derived from the passage as `to_words` and `get_game_mode` specify. |
| Game.Begin | src/game/mod.rs:112-135 | A round starts with one raw span per passage character, nothing typed, no mistaken words, and unit 0. |
| Game.SetupFacts | src/game/mod.rs:126-128 | A round has at least one unit, and the units rejoin to the passage. |
| Game.UnitFits | src/game/mod.rs:234-255 | The current unit always lies inside the displayed passage, both in full and in line mode. |
| Game.LineCut | src/game/mod.rs:212-219 | The line-mode cut of a completed unit leaves the display starting at the next unit. |
| Game.Pop | src/game/mod.rs:197-199 | `pop` removes the last character, and an empty input stays empty. |
| Game.OnKey | src/game/mod.rs:184-232 | Only typed characters touch the statistics, set the first-input flag and allow the combo; the key never touches the mistaken words. |
| Game.TypeChar | src/game/mod.rs:200-226 | A typed character keeps the round well formed and leaves the mistaken words alone. |
| Game.MaybeDecremented | src/game/formatter/mod.rs:48-50 | The redrawn unit is never after the current one. |
| Game.FullTexts | src/game/mod.rs:236-245 | The full-passage redraw keeps the display length and sets the error flag by the current unit. |
| Game.LineTexts | src/game/mod.rs:246-254 | The line-mode redraw keeps the display length and sets the error flag by the current unit. |
| Game.Reformat | src/game/mod.rs:234-255 | The redraw changes only the display, and leaves it consistent with the input. |
| Game.Score | src/game/mod.rs:257-273 | Scoring never moves the unit or the input, and keeps the statistics valid. A key that typed nothing changes nothing. |
| Game.End | src/game/mod.rs:275-284 | The end-of-passage check keeps the round invariant, only refreshes the WPM in the statistics, and keeps the mistaken words. |
| Game.Step | src/game/mod.rs:137-284 | A turn that exits changes nothing; any other turn keeps the round invariant and valid statistics. |
| Game.ScoreThenEnd | src/game/mod.rs:257-284 | Scoring followed by the end check keeps the round invariant. |
| Game.AfterComplete | src/game/mod.rs:305-369 | After the passage is finished only Ctrl-c, -n, -p and -r leave; every other key is ignored. |
| Game.BeginInv | src/game/mod.rs:112-135 | A new round satisfies the round invariant. |
| Game.ExitKeys | src/game/mod.rs:186-189 | Ctrl-c, -n, -p and -r leave the round with quit, next, previous and restart, and no other control key leaves. |
| Game.NonTypingKeysKeepScore | src/game/mod.rs:184-199 | Keys that type nothing never change the errors, the combo, the accuracy record or the mistaken words. |
| Game.EditKeys | src/game/mod.rs:193-199 | Ctrl-u empties the input, Ctrl-w drops its last word, and Backspace or Ctrl-h drops its last character. The unit moves only when the edit finishes the passage. |
| Game.EditStep | src/game/mod.rs:193-255 | An edit turn redraws the edited input and scores nothing before the end check. |
| Game.CompletingChar | src/game/mod.rs:206-220 | A completing character moves to the next unit with an empty input and extends the combo without an error. |
| Game.IgnoredChar | src/game/mod.rs:221-223 | Newline and tab, unless they complete the unit, leave the input and the unit as they were. |
| Game.AppendedChar | src/game/mod.rs:224-226 | Any other character is appended to the input, unless the turn finishes the passage. |
| Game.TypedCharError | src/game/mod.rs:259-261 | A typed character that leaves the input wrong costs one error (as a `u16`) and breaks the combo. |
| Game.TypedCharMistaken | src/game/mod.rs:262-263 | The same turn adds the current unit to the mistaken words. |
| Game.TypedCharErrorEnds | src/game/mod.rs:265-268 | In instant-death mode that turn shows the failed passage; in the other modes the round goes on. |
| Game.TypedCharCorrect | src/game/mod.rs:269-273 | A typed character that leaves the input right extends the combo by one and costs no error. |
| Game.FinishingChar | src/game/mod.rs:275-284 | Once a typed character finishes the passage, the display is the completed passage, the index moves one past, and the input is cleared. |
| Game.TimeoutOnlyRefreshesWpm | src/game/mod.rs:175-182 | A timeout changes only the WPM, and only once the player has started typing. |
| Game.Round.constructor | src/game/mod.rs:112-135 | The loop state starts as `Begin` and satisfies the round invariant. |
| Game.Round.HandleEvent | src/game/mod.rs:175-284 | One turn of the loop updates the round and the statistics in place exactly as `Step` specifies. |
| Game.Round.HandlePress | src/game/mod.rs:184-284 | A turn with a key updates state as `Step` specifies. |
| Game.Round.ApplyKey | src/game/mod.rs:184-232 | The key match updates state as `OnKey` specifies, and leaves everything unchanged when it exits. |
| Game.Round.TypeCharacter | src/game/mod.rs:206-226 | A typed character updates the input, the unit and the display as `TypeChar` specifies. |
| Game.Round.PopInput | src/game/mod.rs:197-199 | The input loses its last character, as `Pop` specifies. |
| Game.Round.Rebuild | src/game/mod.rs:234-255 | The display is rebuilt as `Reformat` specifies. |
| Game.Round.ScoreKey | src/game/mod.rs:257-273 | Scoring updates state as `Score` specifies, and reports whether instant death failed the round. |
| Game.Round.ScoreThenEndKey | src/game/mod.rs:257-284 | Scoring, then the end check, update state as `ScoreThenEnd` specifies. |
| Game.Round.EndIfDone | src/game/mod.rs:275-284 | The end check updates state as `End` specifies. |
| Game.Round.FinishRound | src/game/mod.rs:280-283 | A finished passage is shown complete, the index moves past it, the WPM is refreshed and the input is cleared. |
| GameDb.ShouldPersist | src/game/game_db/mod.rs:66-68 | A passage is not stored exactly when it is the user's own text or the fallback passage. |
| GameDb.TrimStartMatches | src/game/game_db/mod.rs:73-77 | `trim_start_matches` returns a suffix of its input, and leaves the input alone when the pattern is empty or not a prefix. |
| GameDb.TrimLeavesNoPattern | src/game/game_db/mod.rs:73-77 | After trimming, the text no longer starts with the pattern. |
| GameDb.TrimRepeated | src/game/game_db/mod.rs:73-77 | Any number of leading copies of the pattern are removed, and what follows them is kept. |
| GameDb.LocalPassagePath | src/game/game_db/mod.rs:73-77 | The local path is no longer than the absolute one, and equals it when the path is not under the quote directory. |
| GameDb.LocalPathUnderQuoteDir | src/game/game_db/mod.rs:70-77 | A path under the quote directory loses exactly that prefix. |
| GameDb.StoredPassageKey | src/game/game_db/mod.rs:12-22 | Nothing is stored for the user's own text or the fallback passage. Anything else is stored under its local path. |
| GameDb.UserInputNotStored | src/game/game_db/mod.rs:18-20 | A passage typed in by the user is never stored. |
| Validator.ValidateLangPacks | src/config/validator.rs:19-33 | Invalid exactly when both the black list and the white list are given, with the source's message. |
| Validator.ValidateConfig | src/config/validator.rs:7-13 | A valid configuration comes back unchanged; an invalid one gives the language-pack error. |
| Validator.ValidExactlyWithoutBothLists | src/config/validator.rs:7-33 | A configuration passes exactly when it does not give both lists. |
| Validator.ValidatorExamples | src/config/validator.rs:40-73 | The validator's examples: empty passes, both lists fail, either list alone passes. |
| Graphs.IncrementCurrentMode | src/graphs/mod.rs:105-107 | One step right stays within the three modes and wraps from the last to the first. |
| Graphs.DecrementCurrentMode | src/graphs/mod.rs:109-115 | One step left wraps from the first to the last, and stays within the modes. |
| Graphs.StepsUndo | src/graphs/mod.rs:105-115 | Left undoes right and right undoes left. |
| Graphs.ThreeStepsCycle | src/graphs/mod.rs:38 | Three steps right come back, visiting all three modes. |
| TermCheck.NeedInput | src/term_check/mod.rs:12-14 | The player is asked to resize exactly when the terminal is narrower or shorter than recommended. |
| TermCheck.NeedInputMonotone | src/term_check/mod.rs:12-14 | A larger terminal, or a lower recommendation, never creates a need to resize. |
| TermCheck.NeedInputExamples | src/term_check/mod.rs:55-71 | The cases of the size check's examples, and that the recommended 80 by 30 is enough. |

## Left out

- Rendering: the terminal UI, colours beyond the three the game distinguishes, text modifiers, the info and graph screens (Ctrl-a and Ctrl-g only draw, so they change nothing here), and `Stats::text`.
- The database, the file system and the network: `store_stats` is modelled only as which passages are written and under which key. These are not part of this model: `roll_to_delete_mistaken_words_typed_correctly`, `store_mistaken_words`, `retrieve_mistaken_words_passage`, the quote-directory listing with its black-list and white-list filters, and reading the configuration file.
- Threads and channels: the input thread and its 500 ms polling become an `Event` that is a key or a timeout.
- The clock is a parameter `now` in whole seconds. Stats.StatsData.UpdateWpm requires `now` not before the start time, and Stats.StatsData.UpdateStartTime requires a first keystroke after second 0. The source computes `now - start_time` (src/stats/mod.rs:87) and `now - 1` (src/stats/mod.rs:94) in `u64`, which would panic in a debug build, or wrap in a release build, on a clock that goes backwards or reads 0; that case is not modelled. The random choice of a passage is the abstract `source`, whose n-th fetch is `source(n)`.
- PassageController.Controller.GetNewPassage: does not model the fallback passage or the random choice among quote files; it only numbers the fetches.
- Stats.WpmFor: `f64` arithmetic is replaced by exact rational arithmetic with rounding up. The float-to-`u64` cast is modelled by its saturation (infinity to the largest `u64`, NaN to 0); float rounding error is not modelled.
- Stats.AccuracyRange: the accuracy is an exact `real`, not an `f64`.
- `usize` counters (the combo, indices) are unbounded naturals. Overflow of those is not modelled.
- Stats.StatsData.IncrementErrors: the `u16` increment is modelled as wrapping (a release build); a debug build would panic at 65535 errors instead.
- Indexer.CheckLikeWord: lengths and the prefix test are over characters. The source compares the byte lengths (src/game/indexer/mod.rs:9) and slices the word by the input's byte length (`&word[..input.len()]`, src/game/indexer/mod.rs:13). Where the source does not panic it agrees with the character reading. It panics when the input's byte length falls inside a multi-byte character of the word, for instance the input "aaa" on the word "éé", which the byte comparison lets through. That panic is not modelled.
- WordProcessing.GetUpdatedTexts: the Latin cut uses the word's character count. The source uses its byte count, which differs for non-ASCII Latin words.
- Split.IsWideCharacter: an empty passage is excluded by precondition; the source aborts on it.
- Indexer.GetTryingLetterIdx: the loop's stop is taken at the input's last character, counted in characters. The source stops at `user_input.len() - 1` (src/game/indexer/mod.rs:48), a byte count, while it indexes the input's characters. For multi-byte input the source's stop comes later: on the word "cafés" with input "café" it returns the offset plus 4 where the model gives plus 3, and on the word "ééé" with input "éé" it reads past the input's characters and panics. Neither is modelled.
- Indexer.GetStartingIdx and Indexer.GetTryingLetterIdx take the text mode, and NonLatin offsets add no separator. In this revision src/game/indexer/mod.rs defines only the Latin `get_starting_idx` and `get_trying_letter_idx`; the model's Latin instances are those. `get_maybe_decremented_idx`, `join_to_passage` and the whitespace-collapsing `to_words` used by `get_all_input_minus_last_word` are called but not defined in this revision. They are modelled (Indexer.MaybeDecrementedIdx, Split.JoinToPassage, Split.ToWordsCollapsing) from their use in the code and from the examples at src/game/word_processing/mod.rs:357-384.
- PassageController.Wrap: the ring step `% history_size` is written as repeated subtraction in the pure functions. PassageController.WrapIsMod proves it equal to `%`.
- Formatter.GetFormattedWords: the cursor appended to the input is the code's raw "█". The examples at src/game/formatter/mod.rs:275 and :311 expect a space on a blue background instead; the model follows the code.
- The Training mode's end-of-round database work (rolling mistaken words) and the terminal-size check's key loop are I/O and are not modelled.
