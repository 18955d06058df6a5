/** Stepping through a non-empty list with wrap-around, as the photo sliders of builds.js and
    the focus trap of main.js both do. */
module Cyclic {
  /** One step forward (the right arrow, Tab): `i = (i + 1) % n`. */
  function NextIndex(i: nat, n: nat): (j: nat)
    requires i < n
    ensures j < n
    ensures j == if i == n - 1 then 0 else i + 1
  {
    (i + 1) % n
  }

  /** One step back (the left arrow, Shift+Tab): `i = (i - 1 + n) % n`. */
  function PrevIndex(i: nat, n: nat): (j: nat)
    requires i < n
    ensures j < n
    ensures j == if i == 0 then n - 1 else i - 1
  {
    (i - 1 + n) % n
  }
}
