/**
 * The terminal-size check at start-up (src/term_check/mod.rs): the player is asked to
 * resize when the terminal is smaller than recommended in either dimension.
 */
module TermCheck {

  /** A terminal area (`tui::layout::Rect`). */
  datatype Rect = Rect(x: nat, y: nat, width: nat, height: nat)

  /** The size `resolution_check` recommends. */
  const RecommendedWidth: nat := 80
  const RecommendedHeight: nat := 30

  /** `need_input`: the terminal is too short or too narrow. */
  function NeedInput(rect: Rect, recommendedWidth: nat, recommendedHeight: nat): (need: bool)
    ensures !need <==> rect.width >= recommendedWidth && rect.height >= recommendedHeight
  {
    rect.height < recommendedHeight || rect.width < recommendedWidth
  }

  /** Growing the terminal, or lowering the recommendation, never creates a need to
      resize. */
  lemma NeedInputMonotone(small: Rect, large: Rect, w: nat, h: nat, w': nat, h': nat)
    requires large.width >= small.width && large.height >= small.height
    requires w' <= w && h' <= h
    ensures !NeedInput(small, w, h) ==> !NeedInput(large, w', h')
  {
  }

  /** The cases the check's own examples exercise (`Rect::new(x, y, width, height)`). */
  lemma NeedInputExamples()
    ensures !NeedInput(Rect(0, 0, 30, 80), 30, 80)
    ensures NeedInput(Rect(0, 0, 29, 82), 30, 80)
    ensures NeedInput(Rect(0, 0, 31, 79), 30, 80)
    ensures NeedInput(Rect(0, 0, 30, 80), 29, 81)
    ensures NeedInput(Rect(0, 0, 30, 80), 31, 79)
    ensures !NeedInput(Rect(0, 0, RecommendedWidth, RecommendedHeight), RecommendedWidth, RecommendedHeight)
  {
  }
}
