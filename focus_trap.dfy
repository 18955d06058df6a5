/** `trapFocusKeydown` from main.js: a decision over the container's focusable elements
    (taken as a sequence of element identities) and the element that has focus. */
module FocusTrap {
  import opened Wrappers
  import opened Cyclic

  /** What the handler does to the key event: whether it cancels the browser's own
      focus move, and which element it focuses itself. */
  datatype TrapResult = TrapResult(preventDefault: bool, focus: Option<nat>)

  function TrapFocus(key: string, shift: bool, focusable: seq<nat>, active: nat): (r: TrapResult)
    ensures key != "Tab" ==> r == TrapResult(false, None)
    ensures key == "Tab" && |focusable| == 0 ==> r == TrapResult(true, None)
    ensures r.focus.Some? ==> r.preventDefault && r.focus.value in focusable
    ensures r.preventDefault && |focusable| > 0 ==> r.focus.Some?
    ensures r.focus.Some? <==>
              key == "Tab" && |focusable| > 0 &&
              (if shift then active == focusable[0] else active == focusable[|focusable| - 1])
    ensures r.focus.Some? ==> r.focus.value == (if shift then focusable[|focusable| - 1] else focusable[0])
  {
    if key != "Tab" then TrapResult(false, None)
    else if |focusable| == 0 then TrapResult(true, None)
    else
      var first := focusable[0];
      var last := focusable[|focusable| - 1];
      if shift then
        if active == first then TrapResult(true, Some(last)) else TrapResult(false, None)
      else
        if active == last then TrapResult(true, Some(first)) else TrapResult(false, None)
  }

  /** The browser's own Tab move inside the container, from the k-th focusable element:
      the next (or, with Shift, the previous) one, or None when focus would leave it. */
  function DefaultMove(focusable: seq<nat>, k: nat, shift: bool): (r: Option<nat>)
    requires k < |focusable|
    ensures r.Some? <==> (if shift then k > 0 else k + 1 < |focusable|)
  {
    if shift then (if k > 0 then Some(focusable[k - 1]) else None)
    else if k + 1 < |focusable| then Some(focusable[k + 1]) else None
  }

  /** The element focused once the handler and then the browser have acted on a Tab key
      pressed on the k-th focusable element (None: focus left the container). */
  function FocusAfterTab(focusable: seq<nat>, k: nat, shift: bool): Option<nat>
    requires k < |focusable|
  {
    var r := TrapFocus("Tab", shift, focusable, focusable[k]);
    if r.focus.Some? then r.focus
    else if r.preventDefault then Some(focusable[k])
    else DefaultMove(focusable, k, shift)
  }

  predicate Distinct(s: seq<nat>) {
    forall i, j :: 0 <= i < j < |s| ==> s[i] != s[j]
  }

  /** With the trap, Tab and Shift+Tab cycle through the focusable elements and never
      leave the container: the same wrap-around as a photo slider's arrows. */
  lemma TabCycles(focusable: seq<nat>, k: nat, shift: bool)
    requires Distinct(focusable) && k < |focusable|
    ensures FocusAfterTab(focusable, k, shift) ==
              Some(if shift then focusable[PrevIndex(k, |focusable|)] else focusable[NextIndex(k, |focusable|)])
  {
    var n := |focusable|;
    if shift {
      assert focusable[k] == focusable[0] <==> k == 0 by {
        if k != 0 { assert focusable[0] != focusable[k]; }
      }
    } else {
      assert focusable[k] == focusable[n - 1] <==> k == n - 1 by {
        if k != n - 1 { assert focusable[k] != focusable[n - 1]; }
      }
    }
  }

  /** Without distinct elements the trap can fire early: when the first and last entries
      are the same element, Tab on the first entry jumps straight back to it. */
  lemma RepeatedElementShortCircuits()
    ensures FocusAfterTab([7, 8, 7], 0, false) == Some(7)
  {
    assert TrapFocus("Tab", false, [7, 8, 7], 7).focus == Some(7);
  }
}
