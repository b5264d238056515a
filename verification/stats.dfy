/**
 * The statistics of a round (src/stats/mod.rs): words per minute by two formulas, the
 * error count, the combo and best combo, and the per-letter accuracy record.
 *
 * The source computes words per minute and accuracy in `f64`; here they are exact: WPM is
 * a rounded-up integer quotient saturated to the `u64` range, accuracy a `real`. The clock
 * is a parameter (`now`, whole seconds).
 */
module Stats {
  import opened Indexer
  import opened WordProcessing

  const U64_MAX: nat := 0xFFFF_FFFF_FFFF_FFFF
  /** `errors` is a `u16`. */
  const U16_MODULUS: nat := 0x1_0000

  /** Least `q` with `q * b >= a`. */
  function CeilDiv(a: nat, b: nat): (q: nat)
    requires b > 0
    ensures q * b >= a
    ensures q == 0 || (q - 1) * b < a
  {
    if a % b == 0 then a / b else a / b + 1
  }

  /** Characters typed before unit `wordIdx`, each unit counted with one following space
      (`take` stops at the end of the passage). */
  function CharCount(words: seq<string>, wordIdx: nat): nat
  {
    StartingIdx(Latin, words, Min(wordIdx, |words|))
  }

  /** The value `update_wpm` stores. Modern: (characters / 5) per minute, i.e.
      12 * characters / seconds; legacy: 60 * units / seconds. The quotient is rounded up;
      the float-to-`u64` cast saturates, so a zero elapsed time gives 0 for nothing typed
      and the largest `u64` otherwise. */
  function WpmFor(legacyWpm: bool, wordIdx: nat, words: seq<string>, elapsed: nat): (wpm: nat)
    ensures wpm <= U64_MAX
    ensures var typed := if legacyWpm then 60 * wordIdx else 12 * CharCount(words, wordIdx);
            elapsed > 0 && CeilDiv(typed, elapsed) <= U64_MAX ==>
              wpm * elapsed >= typed && (wpm == 0 || (wpm - 1) * elapsed < typed)
    ensures var typed := if legacyWpm then 60 * wordIdx else 12 * CharCount(words, wordIdx);
            elapsed == 0 ==> (wpm == 0 <==> typed == 0)
  {
    var typed := if legacyWpm then 60 * wordIdx else 12 * CharCount(words, wordIdx);
    if elapsed == 0 then (if typed == 0 then 0 else U64_MAX)
    else Min(CeilDiv(typed, elapsed), U64_MAX)
  }

  /** `update_accuracy`: a slot past the end of the record appends one entry (at the end,
      whatever the slot); an existing slot that is still right takes the new value; a
      slot that was ever wrong stays wrong. */
  function UpdatedAccuracy(record: seq<bool>, typedRight: bool, slot: nat): (r: seq<bool>)
    ensures |record| <= slot ==> r == record + [typedRight]
    ensures slot < |record| ==> |r| == |record| && r[slot] == (record[slot] && typedRight)
    ensures forall i :: 0 <= i < |record| && i != slot ==> r[i] == record[i]
    ensures forall i :: 0 <= i < |record| && !record[i] ==> !r[i]
  {
    if |record| <= slot then record + [typedRight]
    else if record[slot] then record[slot := typedRight]
    else record
  }

  /** Number of slots marked wrong. */
  function Mistakes(record: seq<bool>): nat
  {
    if record == [] then 0
    else Mistakes(record[..|record| - 1]) + (if record[|record| - 1] then 0 else 1)
  }

  lemma {:induction false} MistakesBound(record: seq<bool>)
    ensures Mistakes(record) <= |record|
    ensures Mistakes(record) == 0 <==> forall i :: 0 <= i < |record| ==> record[i]
    ensures Mistakes(record) == |record| <==> forall i :: 0 <= i < |record| ==> !record[i]
  {
    if record != [] {
      var init := record[..|record| - 1];
      MistakesBound(init);
      assert forall i :: 0 <= i < |init| ==> init[i] == record[i];
    }
  }

  /** The accuracy shown to the player, in percent: the share of slots never mistyped, or
      0 when nothing was typed. */
  function Accuracy(record: seq<bool>): real
  {
    if record == [] then 0.0
    else 100.0 * ((|record| - Mistakes(record)) as real) / (|record| as real)
  }

  /** Accuracy is a percentage; it is 100 exactly when no slot was mistyped and 0 when
      every slot was. */
  lemma AccuracyRange(record: seq<bool>)
    requires record != []
    ensures 0.0 <= Accuracy(record) <= 100.0
    ensures Accuracy(record) == 100.0 <==> forall i :: 0 <= i < |record| ==> record[i]
    ensures Accuracy(record) == 0.0 <==> forall i :: 0 <= i < |record| ==> !record[i]
  {
    MistakesBound(record);
    var n := |record| as real;
    var right := (|record| - Mistakes(record)) as real;
    assert Accuracy(record) == 100.0 * right / n;
    PercentBounds(right, n);
  }

  /** A share of a positive whole, in percent. */
  lemma PercentBounds(part: real, whole: real)
    requires 0.0 <= part <= whole && whole > 0.0
    ensures 0.0 <= 100.0 * part / whole <= 100.0
    ensures 100.0 * part / whole == 100.0 <==> part == whole
    ensures 100.0 * part / whole == 0.0 <==> part == 0.0
  {
    var p := 100.0 * part / whole;
    assert p * whole == 100.0 * part;
    assert 100.0 * whole - p * whole == 100.0 * (whole - part);
    assert (100.0 - p) * whole == 100.0 * (whole - part);
  }

  /** The number of mistyped slots never goes down: an update only appends or flips a
      right slot. */
  lemma {:induction false} MistakesNeverDecrease(record: seq<bool>, typedRight: bool, slot: nat)
    ensures Mistakes(UpdatedAccuracy(record, typedRight, slot)) >= Mistakes(record)
    ensures typedRight ==> Mistakes(UpdatedAccuracy(record, typedRight, slot)) == Mistakes(record)
  {
    var r := UpdatedAccuracy(record, typedRight, slot);
    if |record| <= slot {
      assert r[..|r| - 1] == record;
    } else {
      MistakesPointwise(record, r);
    }
  }

  /** Two records of the same length where the second is wrong wherever the first is
      have at least as many mistakes; with the same wrong slots, the same number. */
  lemma {:induction false} MistakesPointwise(a: seq<bool>, b: seq<bool>)
    requires |a| == |b|
    requires forall i :: 0 <= i < |a| && !a[i] ==> !b[i]
    ensures Mistakes(b) >= Mistakes(a)
    ensures (forall i :: 0 <= i < |a| ==> a[i] == b[i]) ==> Mistakes(b) == Mistakes(a)
  {
    if a != [] {
      var n := |a| - 1;
      assert forall i :: 0 <= i < n ==> a[..n][i] == a[i] && b[..n][i] == b[i];
      MistakesPointwise(a[..n], b[..n]);
      if forall i :: 0 <= i < |a| ==> a[i] == b[i] {
        assert a == b;
      }
    }
  }

  /** A snapshot of the statistics. */
  datatype StatsData = StatsData(errors: nat, wpm: nat, legacyWpm: bool, startTime: nat,
                                 charProperlyTyped: seq<bool>, combo: nat, highestCombo: nat)
  {
    /** The best combo is never below the current one, and the counters fit their types. */
    predicate Valid()
    {
      combo <= highestCombo && errors < U16_MODULUS && wpm <= U64_MAX
    }

    /** `update_wpm`. The elapsed time is an unsigned subtraction, so `now` may not lie
        before the start time. */
    function UpdateWpm(wordIdx: nat, words: seq<string>, now: nat): (s: StatsData)
      requires now >= startTime
      ensures s == this.(wpm := s.wpm) && s.wpm <= U64_MAX
      ensures s.wpm == WpmFor(legacyWpm, wordIdx, words, now - startTime)
    {
      this.(wpm := WpmFor(legacyWpm, wordIdx, words, now - startTime))
    }

    /** `update_start_time`: the first keystroke starts the clock one second in the past;
        later keystrokes leave it alone. */
    function UpdateStartTime(now: nat): (s: StatsData)
      requires startTime == 0 ==> now >= 1
      ensures startTime == 0 ==> s == this.(startTime := now - 1)
      ensures startTime != 0 ==> s == this
    {
      if startTime == 0 then this.(startTime := now - 1) else this
    }

    /** `increment_errors`: one more error (the `u16` wraps), the combo is broken and the
        slot is marked wrong. */
    function IncrementErrors(slot: nat): (s: StatsData)
      ensures s.errors == (errors + 1) % U16_MODULUS && s.combo == 0
      ensures s.charProperlyTyped == UpdatedAccuracy(charProperlyTyped, false, slot)
      ensures s.wpm == wpm && s.legacyWpm == legacyWpm && s.startTime == startTime
      ensures s.highestCombo == highestCombo
      ensures Valid() ==> s.Valid()
    {
      this.(errors := (errors + 1) % U16_MODULUS, combo := 0,
            charProperlyTyped := UpdatedAccuracy(charProperlyTyped, false, slot))
    }

    /** `increment_combo`: the combo grows by one, the slot is marked right unless it was
        ever wrong, and the best combo keeps up. */
    function IncrementCombo(slot: nat): (s: StatsData)
      ensures s.combo == combo + 1 && s.highestCombo >= s.combo
      ensures s.highestCombo >= highestCombo
      ensures s.highestCombo == highestCombo || s.highestCombo == s.combo
      ensures s.charProperlyTyped == UpdatedAccuracy(charProperlyTyped, true, slot)
      ensures s.errors == errors && s.wpm == wpm && s.legacyWpm == legacyWpm
      ensures s.startTime == startTime
      ensures Valid() ==> s.Valid()
    {
      var combo' := combo + 1;
      this.(combo := combo', highestCombo := Max(highestCombo, combo'),
            charProperlyTyped := UpdatedAccuracy(charProperlyTyped, true, slot))
    }

    /** `reset`: a new round starts from zero, except for the formula setting and the best
        combo. */
    function Reset(): (s: StatsData)
      ensures s.wpm == 0 && s.errors == 0 && s.startTime == 0 && s.combo == 0
      ensures s.charProperlyTyped == []
      ensures s.legacyWpm == legacyWpm && s.highestCombo == highestCombo
      ensures Valid() ==> s.Valid()
    {
      this.(wpm := 0, errors := 0, startTime := 0, combo := 0, charProperlyTyped := [])
    }
  }

  function Max(a: nat, b: nat): nat
  {
    if a >= b then a else b
  }

  /** `Stats::new`. */
  function NewStats(legacyWpm: bool): (s: StatsData)
    ensures s.Valid() && s.charProperlyTyped == [] && s.startTime == 0
  {
    StatsData(0, 0, legacyWpm, 0, [], 0, 0)
  }

  /** Modern formula: 10 characters in 1 second is 120 WPM, 20 in 10 seconds is 24. */
  lemma ModernWpmExample()
    ensures WpmFor(false, 2, ["There's", "a", "time", "when", "the", "operation"], 1) == 120
    ensures WpmFor(false, 4, ["There's", "a", "time", "when", "the", "operation"], 10) == 24
  {
  }

  /** Legacy formula: 2 units in 1 second is 120 WPM, 4 in 10 seconds is 24. */
  lemma LegacyWpmExample()
    ensures WpmFor(true, 2, [], 1) == 120
    ensures WpmFor(true, 4, [], 10) == 24
  {
  }

  /** A slot once mistyped stays mistyped however it is retyped. */
  lemma NoOverwriteIncorrectExample()
    ensures NewStats(false).IncrementErrors(0).IncrementErrors(1).IncrementCombo(1)
              .IncrementCombo(2).IncrementErrors(2).IncrementCombo(1).IncrementCombo(2)
              .charProperlyTyped == [false, false, false]
    ensures Accuracy([false, false, false]) == 0.0
  {
  }

  /** One error on a new session counts one. */
  lemma ErrorsExample()
    ensures NewStats(false).IncrementErrors(0).errors == 1
  {
  }

  /** Five right letters in a row: every slot right and 100 percent accuracy. */
  lemma AllRightExample()
    ensures var s := NewStats(false).IncrementCombo(0).IncrementCombo(1).IncrementCombo(2)
                       .IncrementCombo(3).IncrementCombo(4);
            s.charProperlyTyped == [true, true, true, true, true] &&
            Accuracy(s.charProperlyTyped) == 100.0
  {
  }

  /** Five wrong letters in a row: every slot wrong and 0 percent accuracy. */
  lemma AllWrongExample()
    ensures var s := NewStats(false).IncrementErrors(0).IncrementErrors(1).IncrementErrors(2)
                       .IncrementErrors(3).IncrementErrors(4);
            s.charProperlyTyped == [false, false, false, false, false] &&
            Accuracy(s.charProperlyTyped) == 0.0
  {
  }

  /** The mutable statistics object of a session. */
  class Stats {
    var errors: nat
    var wpm: nat
    const legacyWpm: bool
    var startTime: nat
    var charProperlyTyped: seq<bool>
    var combo: nat
    var highestCombo: nat

    function Data(): StatsData
      reads this
    {
      StatsData(errors, wpm, legacyWpm, startTime, charProperlyTyped, combo, highestCombo)
    }

    ghost predicate Valid()
      reads this
    {
      Data().Valid()
    }

    constructor (legacyWpm: bool)
      ensures Data() == NewStats(legacyWpm) && Valid()
    {
      errors := 0;
      wpm := 0;
      this.legacyWpm := legacyWpm;
      startTime := 0;
      charProperlyTyped := [];
      combo := 0;
      highestCombo := 0;
    }

    method UpdateWpm(wordIdx: nat, words: seq<string>, now: nat)
      requires Valid() && now >= startTime
      modifies this
      ensures Valid() && Data() == old(Data()).UpdateWpm(wordIdx, words, now)
    {
      var charCount := GetStartingIdx(Latin, words, wordIdx);
      var typed := if legacyWpm then 60 * wordIdx else 12 * charCount;
      var elapsed := now - startTime;
      if elapsed == 0 {
        wpm := if typed == 0 then 0 else U64_MAX;
      } else {
        wpm := Min(CeilDiv(typed, elapsed), U64_MAX);
      }
    }

    method UpdateStartTime(now: nat)
      requires Valid() && (startTime == 0 ==> now >= 1)
      modifies this
      ensures Valid() && Data() == old(Data()).UpdateStartTime(now)
    {
      if startTime == 0 {
        startTime := now - 1;
      }
    }

    method IncrementErrors(currentLetter: nat)
      requires Valid()
      modifies this
      ensures Valid() && Data() == old(Data()).IncrementErrors(currentLetter)
    {
      errors := (errors + 1) % U16_MODULUS;
      combo := 0;
      UpdateAccuracy(false, currentLetter);
    }

    method IncrementCombo(currentLetter: nat)
      requires Valid()
      modifies this
      ensures Valid() && Data() == old(Data()).IncrementCombo(currentLetter)
    {
      combo := combo + 1;
      UpdateAccuracy(true, currentLetter);
      highestCombo := Max(highestCombo, combo);
    }

    /** Pushes or overwrites one entry of the record in place. */
    method UpdateAccuracy(typedRight: bool, currentLetter: nat)
      modifies this`charProperlyTyped
      ensures charProperlyTyped == UpdatedAccuracy(old(charProperlyTyped), typedRight, currentLetter)
    {
      if |charProperlyTyped| <= currentLetter {
        charProperlyTyped := charProperlyTyped + [typedRight];
      } else if charProperlyTyped[currentLetter] {
        charProperlyTyped := charProperlyTyped[currentLetter := typedRight];
      }
    }

    /** `get_typing_accuracy`: counts the mistyped slots in one pass. */
    method GetTypingAccuracy() returns (accuracy: real)
      ensures accuracy == Accuracy(charProperlyTyped)
    {
      var letterCount := |charProperlyTyped|;
      var mistakes := 0;
      if letterCount == 0 {
        return 0.0;
      }
      var i := 0;
      while i < letterCount
        invariant i <= letterCount
        invariant mistakes == Mistakes(charProperlyTyped[..i])
      {
        assert charProperlyTyped[..i + 1][..i] == charProperlyTyped[..i];
        if !charProperlyTyped[i] {
          mistakes := mistakes + 1;
        }
        i := i + 1;
      }
      assert charProperlyTyped[..letterCount] == charProperlyTyped;
      MistakesBound(charProperlyTyped);
      accuracy := 100.0 * ((letterCount - mistakes) as real) / (letterCount as real);
    }

    method Reset()
      requires Valid()
      modifies this
      ensures Valid() && Data() == old(Data()).Reset()
    {
      wpm := 0;
      errors := 0;
      startTime := 0;
      combo := 0;
      charProperlyTyped := [];
    }

    function GetWpm(): (r: nat)
      reads this
      requires Valid()
      ensures r <= U64_MAX
    {
      wpm
    }

    function GetHighestCombo(): (r: nat)
      reads this
      requires Valid()
      ensures r >= combo
    {
      highestCombo
    }

    function GetLegacyWpm(): (r: bool)
      reads this
      ensures r == Data().legacyWpm
    {
      legacyWpm
    }

    function GetStartTime(): (r: nat)
      reads this
      ensures r == Data().startTime
    {
      startTime
    }
  }
}
