/**
 * The statistic shown on the graphs screen (src/graphs/mod.rs): the screen cycles through
 * the three modes WPM, accuracy and combo with the arrow keys.
 */
module Graphs {

  datatype Mode = Accuracy | Combo | Wpm

  /** `MODES`: the order the screen cycles through. */
  const Modes: seq<Mode> := [Wpm, Accuracy, Combo]

  /** `increment_current_mode`: one step right, wrapping from the last mode to the first. */
  function IncrementCurrentMode(current: nat): (next: nat)
    ensures next < |Modes|
    ensures current + 1 < |Modes| ==> next == current + 1
    ensures current + 1 == |Modes| ==> next == 0
  {
    (current + 1) % |Modes|
  }

  /** `decrement_current_mode`: one step left, wrapping from the first mode to the last. */
  function DecrementCurrentMode(current: nat): (prev: nat)
    ensures current == 0 ==> prev == |Modes| - 1
    ensures current > 0 ==> prev + 1 == current
    ensures current < |Modes| ==> prev < |Modes|
  {
    if current == 0 then |Modes| - 1 else current - 1
  }

  /** Left undoes right and right undoes left on every valid mode index. */
  lemma StepsUndo(current: nat)
    requires current < |Modes|
    ensures DecrementCurrentMode(IncrementCurrentMode(current)) == current
    ensures IncrementCurrentMode(DecrementCurrentMode(current)) == current
  {
  }

  /** Three steps right come back to the same mode, and every mode is visited on the way. */
  lemma ThreeStepsCycle(current: nat)
    requires current < |Modes|
    ensures IncrementCurrentMode(IncrementCurrentMode(IncrementCurrentMode(current))) == current
    ensures {current, IncrementCurrentMode(current), IncrementCurrentMode(IncrementCurrentMode(current))}
            == {0, 1, 2}
  {
  }
}
