/**
 * The question sidebar `frontend/app/components/layout/Navigation.tsx`:
 * a grid with one button per question, Previous and Next buttons with
 * their disabled flags, and a Submit button. The component keeps no state
 * of its own; a click asks the parent to select an index, which is what
 * the functions below return (None when it asks nothing).
 */
module Navigation {
  import opened Wrappers

  /** `handlePrevious`, lines 16-20. */
  function HandlePrevious(current: int): Option<int> {
    if current > 0 then Some(current - 1) else None
  }

  /** `handleNext`, lines 22-26. */
  function HandleNext(current: int, total: int): Option<int> {
    if current < total - 1 then Some(current + 1) else None
  }

  /** Lines 32-36: the index each grid button selects, in order; a negative total renders no buttons. */
  function GridSelections(total: int): seq<int> {
    seq(if total > 0 then total else 0, i => i)
  }

  /** Line 49. */
  predicate PreviousDisabled(current: int) {
    current == 0
  }

  /** Line 60. */
  predicate NextDisabled(current: int, total: int) {
    current == total - 1
  }

  /** Line 37: the grid button of the current question is highlighted. */
  predicate Highlighted(i: int, current: int) {
    i == current
  }

  /** Previous asks for the question before exactly when there is one; otherwise it asks nothing. */
  lemma PreviousSelectsIff(current: int)
    ensures HandlePrevious(current).Some? <==> current > 0
    ensures HandlePrevious(current).Some? ==> HandlePrevious(current).value == current - 1
  {
  }

  /** Next asks for the question after exactly when there is one; otherwise it asks nothing. */
  lemma NextSelectsIff(current: int, total: int)
    ensures HandleNext(current, total).Some? <==> current < total - 1
    ensures HandleNext(current, total).Some? ==> HandleNext(current, total).value == current + 1
  {
  }

  /**
   * The grid holds one button per question: button `i` selects question
   * `i`, every question has a button, and no two buttons select the same
   * question.
   */
  lemma GridSelectsEachQuestion(total: int)
    ensures var g := GridSelections(total);
      && (total >= 0 ==> |g| == total)
      && (total < 0 ==> g == [])
      && (forall i :: 0 <= i < |g| ==> g[i] == i)
      && (forall q :: q in g <==> 0 <= q < total)
      && (forall i, j :: 0 <= i < j < |g| ==> g[i] != g[j])
  {
    var g := GridSelections(total);
    forall q | 0 <= q < total
      ensures q in g
    {
      assert g[q] == q;
    }
  }

  /**
   * On a valid question a button is disabled exactly when its handler
   * would do nothing, and every index the component can ask for, from a
   * button or from the grid, is a valid question.
   */
  lemma DisabledIffIneffective(current: int, total: int)
    requires 0 <= current < total
    ensures PreviousDisabled(current) <==> HandlePrevious(current).None?
    ensures NextDisabled(current, total) <==> HandleNext(current, total).None?
    ensures HandlePrevious(current).Some? ==> 0 <= HandlePrevious(current).value < total
    ensures HandleNext(current, total).Some? ==> 0 <= HandleNext(current, total).value < total
    ensures forall q :: q in GridSelections(total) ==> 0 <= q < total
  {
    GridSelectsEachQuestion(total);
  }

  /**
   * Off the valid range the flags and the handlers disagree: with no
   * questions the Next button is enabled, yet clicking it asks nothing.
   */
  lemma EmptyExamNextEnabled()
    ensures !NextDisabled(0, 0) && HandleNext(0, 0).None? && GridSelections(0) == []
  {
  }
}
