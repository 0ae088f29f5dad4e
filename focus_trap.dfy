/** The focus trap scripts.js installs on the team modal each time it opens:
    Tab on the last focusable element wraps to the first, Shift+Tab on the
    first wraps to the last. Focusable elements are numbered 0 to n - 1 in
    document order; a focus outside them is `None`. */
module FocusTrap {

  import opened Wrappers

  /** Where the focus is after a key press, and whether the browser's default
      Tab handling was prevented. */
  datatype Outcome = Outcome(focus: Option<nat>, prevented: bool)

  /** One trap listener handling a key press while element `focus` has the
      focus. It acts only on Tab at the edge it guards; with no focusable
      element it never acts. */
  function TrapStep(n: nat, focus: Option<nat>, key: string, shift: bool): (o: Outcome)
    ensures o.prevented <==> key == "Tab" && n > 0 && focus == Some(if shift then 0 else n - 1)
    ensures o.prevented ==> o.focus == Some(if shift then n - 1 else 0)
    ensures !o.prevented ==> o.focus == focus
  {
    if key == "Tab" && n > 0 then
      if shift && focus == Some(0) then Outcome(Some(n - 1), true)
      else if !shift && focus == Some(n - 1) then Outcome(Some(0), true)
      else Outcome(focus, false)
    else Outcome(focus, false)
  }

  /** Shift+Tab from the first element lands on the last, and Tab from there
      lands back on the first. */
  lemma WrapRoundTrip(n: nat)
    requires n > 0
    ensures TrapStep(n, Some(0), "Tab", true) == Outcome(Some(n - 1), true)
    ensures TrapStep(n, Some(n - 1), "Tab", false) == Outcome(Some(0), true)
  {
  }

  /** A second listener acting on the focus the first one left changes
      nothing more. */
  lemma TrapStepSettles(n: nat, focus: Option<nat>, key: string, shift: bool)
    ensures TrapStep(n, TrapStep(n, focus, key, shift).focus, key, shift).focus == TrapStep(n, focus, key, shift).focus
    ensures TrapStep(n, TrapStep(n, focus, key, shift).focus, key, shift).prevented ==> TrapStep(n, focus, key, shift).prevented
  {
  }

  /** `k` listeners installed over the same focusable elements, run in
      installation order on one key press: each sees the focus the previous
      one left. */
  function Listeners(k: nat, n: nat, focus: Option<nat>, key: string, shift: bool): Outcome {
    if k == 0 then Outcome(focus, false)
    else
      var before := Listeners(k - 1, n, focus, key, shift);
      var step := TrapStep(n, before.focus, key, shift);
      Outcome(step.focus, before.prevented || step.prevented)
  }

  /** Opening the modal repeatedly piles up listeners, but any positive
      number of them behaves exactly like one. */
  lemma {:induction false} ListenersActLikeOne(k: nat, n: nat, focus: Option<nat>, key: string, shift: bool)
    requires k >= 1
    ensures Listeners(k, n, focus, key, shift) == TrapStep(n, focus, key, shift)
  {
    if k > 1 {
      ListenersActLikeOne(k - 1, n, focus, key, shift);
      TrapStepSettles(n, focus, key, shift);
    }
  }
}
