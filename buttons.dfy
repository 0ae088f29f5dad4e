/** The "clear every button of the group, then mark one active" step that the
    filter buttons, the results tabs and the font and theme buttons all share. */
module ButtonGroup {

  /** Removes `active` from every button of the group, then adds it to the
      button at `target`. A `target` outside the group (a button that is not on
      the page) leaves every button inactive. */
  method ActivateOnly(active: array<bool>, target: int)
    modifies active
    ensures forall i :: 0 <= i < active.Length ==> (active[i] <==> i == target)
  {
    var i := 0;
    while i < active.Length
      invariant 0 <= i <= active.Length
      invariant forall j :: 0 <= j < i ==> !active[j]
    {
      active[i] := false;
      i := i + 1;
    }
    if 0 <= target < active.Length {
      active[target] := true;
    }
  }

  /** At most one button of a group is active. */
  predicate AtMostOneActive(active: seq<bool>) {
    forall i, j :: 0 <= i < |active| && 0 <= j < |active| && active[i] && active[j] ==> i == j
  }

  /** Exactly one button of a group is active. */
  predicate ExactlyOneActive(active: seq<bool>) {
    AtMostOneActive(active) && exists i :: 0 <= i < |active| && active[i]
  }
}
