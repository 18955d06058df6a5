/** The two overlays of main.js: the homepage lightbox and the builds modals built by
    `initModal`, with its clamping carousel and the per-modal memo. Both lock the page
    through the body's `modal-open` class, and each `close` removes it outright. */
module Overlays {
  import opened Wrappers
  import opened Formatting
  import opened FocusTrap
  import opened Page

  /** `Math.max(0, Math.min(i, n - 1))`: the carousel clamps, it never wraps. */
  function Clamp(i: int, n: nat): (r: nat)
    ensures n >= 1 ==> r < n
    ensures n == 0 ==> r == 0
    ensures 0 <= i < n ==> r == i
    ensures i < 0 ==> r == 0
    ensures n >= 1 && i >= n ==> r == n - 1
  {
    var m := if i < n - 1 then i else n - 1;
    if m > 0 then m else 0
  }

  /** The index after k presses of the right arrow (or of the next button). */
  function RightPresses(i: int, n: nat, k: nat): int
    decreases k
  {
    if k == 0 then i else RightPresses(Clamp(i + 1, n), n, k - 1)
  }

  /** Pressing right stops at the last slide instead of returning to the first. */
  lemma {:induction false} RightPressesSaturate(i: nat, n: nat, k: nat)
    requires i < n
    decreases k
    ensures RightPresses(i, n, k) == if i + k < n then i + k else n - 1
  {
    if k > 0 {
      RightPressesSaturate(Clamp(i + 1, n), n, k - 1);
    }
  }

  /** The index after k presses of the left arrow. */
  function LeftPresses(i: int, n: nat, k: nat): int
    decreases k
  {
    if k == 0 then i else LeftPresses(Clamp(i - 1, n), n, k - 1)
  }

  lemma {:induction false} LeftPressesSaturate(i: nat, n: nat, k: nat)
    requires i < n
    decreases k
    ensures LeftPresses(i, n, k) == if i >= k then i - k else 0
  {
    if k > 0 {
      LeftPressesSaturate(Clamp(i - 1, n), n, k - 1);
    }
  }

  class Lightbox {
    const body: Body
    /** The element that `.lightbox-close` is. */
    const closeBtn: nat
    /** The `show` class. */
    var show: bool
    var src: string
    var alt: string
    var prevFocus: Option<nat>

    constructor (body: Body, closeBtn: nat)
      ensures this.body == body && this.closeBtn == closeBtn
      ensures !show && prevFocus == None
    {
      this.body := body;
      this.closeBtn := closeBtn;
      show := false;
      src := "";
      alt := "";
      prevFocus := None;
    }

    /** A click on a `.glight` image: shows it, locks the page and remembers what had focus. */
    method Open(src: string, alt: Option<string>)
      modifies this, body`modalOpen, body`active
      ensures show && body.modalOpen
      ensures this.src == src && this.alt == OrElseEmpty(alt)
      ensures prevFocus == Some(old(body.active)) && body.active == closeBtn
    {
      this.src := src;
      this.alt := OrElseEmpty(alt);
      show := true;
      body.modalOpen := true;
      prevFocus := Some(body.active);
      body.active := closeBtn;
    }

    /** Hides the lightbox and unlocks the page unconditionally, then returns focus. It is
        also what a click on the close button does. */
    method Close()
      modifies this`show, this`src, body`modalOpen, body`active
      ensures !show && !body.modalOpen && src == ""
      ensures body.active == if prevFocus.Some? then prevFocus.value else old(body.active)
    {
      show := false;
      body.modalOpen := false;
      src := "";
      if prevFocus.Some? {
        body.active := prevFocus.value;
      }
    }

    /** The backdrop's click listener: it closes the lightbox only when the click's target
        is the lightbox element itself. The close button has a listener of its own, which
        is `Close`. */
    method Click(onBackdrop: bool)
      modifies this`show, this`src, body`modalOpen, body`active
      ensures prevFocus == old(prevFocus)
      ensures onBackdrop ==> !show && !body.modalOpen && src == ""
                             && body.active == (if prevFocus.Some? then prevFocus.value else old(body.active))
      ensures !onBackdrop ==> show == old(show) && src == old(src) && body.modalOpen == old(body.modalOpen)
                              && body.active == old(body.active)
    {
      if onBackdrop {
        Close();
      }
    }

    /** A keydown anywhere in the window: ignored unless the lightbox is shown; Escape
        closes it and Tab is kept inside it. Returns whether the default was prevented. */
    method Key(key: string, shift: bool, focusable: seq<nat>) returns (prevented: bool)
      modifies this`show, this`src, body`modalOpen, body`active
      ensures !old(show) ==> !prevented && show == old(show) && src == old(src)
                             && body.modalOpen == old(body.modalOpen) && body.active == old(body.active)
      ensures prevFocus == old(prevFocus)
      ensures old(show) && key == "Escape" ==> !show && !body.modalOpen && src == "" && !prevented
                                               && body.active == (if prevFocus.Some? then prevFocus.value else old(body.active))
      ensures old(show) && key != "Escape" ==>
                var r := TrapFocus(key, shift, focusable, old(body.active));
                show && src == old(src) && body.modalOpen == old(body.modalOpen) &&
                prevented == r.preventDefault &&
                body.active == (if r.focus.Some? then r.focus.value else old(body.active))
    {
      prevented := false;
      if !show {
        return;
      }
      if key == "Escape" {
        Close();
      }
      if key == "Tab" {
        var r := TrapFocus(key, shift, focusable, body.active);
        prevented := r.preventDefault;
        if r.focus.Some? {
          body.active := r.focus.value;
        }
      }
    }
  }

  /** `alt || ''`. */
  function OrElseEmpty(s: Option<string>): (r: string)
    ensures s.Some? ==> r == s.value
    ensures s.None? ==> r == ""
  {
    if s.Some? then s.value else ""
  }

  /** What `initModal` finds inside one `.build-modal` element. */
  datatype ModalLayout = ModalLayout(slideCount: nat, thumbCount: nat, hasCounter: bool,
                                     hasPrev: bool, hasNext: bool, closeBtn: nat)

  class BuildsModal {
    const body: Body
    const slideCount: nat
    /** The `active` class of each `.thumb`. */
    const thumbs: array<bool>
    const hasCounter: bool
    const hasPrev: bool
    const hasNext: bool
    const closeBtn: nat
    var index: nat
    /** The `show` class. */
    var show: bool
    var prevFocus: Option<nat>
    var counterText: string
    var prevDisabled: bool
    var nextDisabled: bool

    /** The index is a slide (or 0 when there are none). */
    ghost predicate Valid()
      reads this
    {
      if slideCount == 0 then index == 0 else index < slideCount
    }

    /** What `goTo` leaves behind: exactly the thumb at the index is active, the counter
        reads "index+1 / n", and prev/next are disabled at the two ends. */
    ghost predicate Displays()
      reads this, thumbs
    {
      (forall t :: 0 <= t < thumbs.Length ==> thumbs[t] == (t == index)) &&
      (hasCounter ==> counterText == Counter(index + 1, slideCount, " / ")) &&
      (hasPrev ==> prevDisabled == (index == 0)) &&
      (hasNext ==> nextDisabled == (index == slideCount - 1))
    }

    constructor (body: Body, layout: ModalLayout)
      ensures Valid() && fresh(thumbs)
      ensures this.body == body && slideCount == layout.slideCount && thumbs.Length == layout.thumbCount
      ensures hasCounter == layout.hasCounter && hasPrev == layout.hasPrev && hasNext == layout.hasNext
      ensures closeBtn == layout.closeBtn
      ensures index == 0 && !show && prevFocus == None
    {
      this.body := body;
      slideCount := layout.slideCount;
      thumbs := new bool[layout.thumbCount];
      hasCounter := layout.hasCounter;
      hasPrev := layout.hasPrev;
      hasNext := layout.hasNext;
      closeBtn := layout.closeBtn;
      index := 0;
      show := false;
      prevFocus := None;
      counterText := "";
      prevDisabled := false;
      nextDisabled := false;
    }

    /** `setActiveThumb`: the thumb at `at` gets the class, every other thumb loses it. */
    method SetActiveThumb(at: nat)
      modifies thumbs
      ensures forall t :: 0 <= t < thumbs.Length ==> thumbs[t] == (t == at)
    {
      for t := 0 to thumbs.Length
        invariant forall u :: 0 <= u < t ==> thumbs[u] == (u == at)
      {
        thumbs[t] := t == at;
      }
    }

    method GoTo(i: int)
      modifies this`index, this`counterText, this`prevDisabled, this`nextDisabled, thumbs
      ensures Valid() && Displays()
      ensures index == Clamp(i, slideCount)
      ensures !hasCounter ==> counterText == old(counterText)
      ensures !hasPrev ==> prevDisabled == old(prevDisabled)
      ensures !hasNext ==> nextDisabled == old(nextDisabled)
    {
      index := Clamp(i, slideCount);
      SetActiveThumb(index);
      if hasCounter {
        counterText := Counter(index + 1, slideCount, " / ");
      }
      if hasPrev {
        prevDisabled := index == 0;
      }
      if hasNext {
        nextDisabled := index == slideCount - 1;
      }
    }

    /** `openAt(at)`: moves to the clamped slide, shows the modal, locks the page and moves
        focus to the close button. The animation-frame `goTo(index)` repeats a clamped
        index, which changes nothing. */
    method Open(at: int)
      modifies this, thumbs, body`modalOpen, body`active
      ensures Valid() && Displays()
      ensures index == Clamp(at, slideCount)
      ensures show && body.modalOpen
      ensures prevFocus == Some(old(body.active)) && body.active == closeBtn
    {
      GoTo(at);
      show := true;
      body.modalOpen := true;
      prevFocus := Some(body.active);
      body.active := closeBtn;
      GoTo(index);
    }

    /** Hides the modal and unlocks the page unconditionally, then returns focus. It is also
        what a click on the close button does. */
    method Close()
      modifies this`show, body`modalOpen, body`active
      ensures !show && !body.modalOpen
      ensures body.active == if prevFocus.Some? then prevFocus.value else old(body.active)
    {
      show := false;
      body.modalOpen := false;
      if prevFocus.Some? {
        body.active := prevFocus.value;
      }
    }

    /** A click on thumbnail t: moves there when the modal is shown, opens it there otherwise. */
    method ThumbClick(t: nat)
      requires t < thumbs.Length
      modifies this, thumbs, body`modalOpen, body`active
      ensures Valid() && Displays() && show
      ensures index == Clamp(t, slideCount)
      ensures old(show) ==> body.modalOpen == old(body.modalOpen) && body.active == old(body.active)
                            && prevFocus == old(prevFocus)
      ensures !old(show) ==> body.modalOpen && prevFocus == Some(old(body.active)) && body.active == closeBtn
    {
      if show {
        GoTo(t);
      } else {
        Open(t);
      }
    }

    method PrevClick()
      requires hasPrev
      modifies this`index, this`counterText, this`prevDisabled, this`nextDisabled, thumbs
      ensures Valid() && Displays()
      ensures index == Clamp(old(index) - 1, slideCount)
    {
      GoTo(index - 1);
    }

    method NextClick()
      requires hasNext
      modifies this`index, this`counterText, this`prevDisabled, this`nextDisabled, thumbs
      ensures Valid() && Displays()
      ensures index == Clamp(old(index) + 1, slideCount)
    {
      GoTo(index + 1);
    }

    /** The backdrop's click listener: it closes the modal only when the click's target is
        the modal element itself. The close button has a listener of its own, which is
        `Close`. */
    method Click(onBackdrop: bool)
      modifies this`show, body`modalOpen, body`active
      ensures prevFocus == old(prevFocus)
      ensures onBackdrop ==> !show && !body.modalOpen
                             && body.active == (if prevFocus.Some? then prevFocus.value else old(body.active))
      ensures !onBackdrop ==> show == old(show) && body.modalOpen == old(body.modalOpen)
                              && body.active == old(body.active)
    {
      if onBackdrop {
        Close();
      }
    }

    /** A keydown inside the modal: Escape closes, the arrows step with clamping and Tab is
        kept inside. Returns whether the default was prevented. */
    method Key(key: string, shift: bool, focusable: seq<nat>) returns (prevented: bool)
      requires Valid()
      modifies this, thumbs, body`modalOpen, body`active
      ensures Valid()
      ensures prevFocus == old(prevFocus)
      ensures key == "Escape" ==> !show && !body.modalOpen && index == old(index) && !prevented
                                  && body.active == (if prevFocus.Some? then prevFocus.value else old(body.active))
      ensures key == "ArrowLeft" ==> Displays() && index == Clamp(old(index) - 1, slideCount) && !prevented
                                     && show == old(show) && body.modalOpen == old(body.modalOpen)
                                     && body.active == old(body.active)
      ensures key == "ArrowRight" ==> Displays() && index == Clamp(old(index) + 1, slideCount) && !prevented
                                      && show == old(show) && body.modalOpen == old(body.modalOpen)
                                      && body.active == old(body.active)
      ensures key != "ArrowLeft" && key != "ArrowRight" ==>
                counterText == old(counterText) && prevDisabled == old(prevDisabled)
                && nextDisabled == old(nextDisabled) && thumbs[..] == old(thumbs[..])
      ensures key !in {"Escape", "ArrowLeft", "ArrowRight"} ==>
                var r := TrapFocus(key, shift, focusable, old(body.active));
                index == old(index) && show == old(show) && body.modalOpen == old(body.modalOpen) &&
                prevented == r.preventDefault &&
                body.active == (if r.focus.Some? then r.focus.value else old(body.active))
    {
      prevented := false;
      if key == "Escape" {
        Close();
      } else if key == "ArrowLeft" {
        GoTo(index - 1);
      } else if key == "ArrowRight" {
        GoTo(index + 1);
      } else if key == "Tab" {
        var r := TrapFocus(key, shift, focusable, body.active);
        prevented := r.preventDefault;
        if r.focus.Some? {
          body.active := r.focus.value;
        }
      }
    }
  }

  /** The `modals` map of `initBuildsModal`: one API per modal element, built on first use. */
  class ModalRegistry {
    const body: Body
    var wired: map<nat, BuildsModal>

    /** Every cached API drives the shared page body and keeps its index on a slide. */
    ghost predicate Valid()
      reads this, wired.Values
    {
      forall k :: k in wired ==> wired[k].body == body && wired[k].Valid()
    }

    constructor (body: Body)
      ensures Valid()
      ensures this.body == body && wired == map[]
    {
      this.body := body;
      wired := map[];
    }

    /** `initModal(modal)`. A missing element yields nothing; a wired one yields its cached
        API untouched, whatever the element now holds; otherwise a new modal is wired at
        its first slide. */
    method InitModal(key: Option<nat>, layout: ModalLayout) returns (api: BuildsModal?)
      requires Valid()
      modifies this`wired
      ensures Valid()
      ensures key.None? ==> api == null && wired == old(wired)
      ensures key.Some? && key.value in old(wired) ==>
                api == old(wired)[key.value] && wired == old(wired) && api.body == body && api.Valid()
      ensures key.Some? && key.value !in old(wired) ==>
                api != null && fresh(api) && fresh(api.thumbs) && wired == old(wired)[key.value := api] &&
                api.body == body && api.Valid() && api.index == 0 && !api.show && api.prevFocus == None &&
                api.slideCount == layout.slideCount && api.thumbs.Length == layout.thumbCount &&
                api.hasCounter == layout.hasCounter && api.hasPrev == layout.hasPrev &&
                api.hasNext == layout.hasNext && api.closeBtn == layout.closeBtn
    {
      if key.None? {
        return null;
      }
      if key.value in wired {
        return wired[key.value];
      }
      api := new BuildsModal(body, layout);
      wired := wired[key.value := api];
    }
  }

  /** Wiring the same element twice hands back the first API. */
  method InitModalTwice(registry: ModalRegistry, key: nat, first: ModalLayout, second: ModalLayout)
    returns (a: BuildsModal?, b: BuildsModal?)
    requires registry.Valid()
    modifies registry
    ensures a != null && a == b && key in registry.wired && registry.wired[key] == a
  {
    a := registry.InitModal(Some(key), first);
    b := registry.InitModal(Some(key), second);
  }

  /** There is no count of open overlays: closing the lightbox unlocks the page while a
      builds modal is still shown over it. */
  method CloseOneOfTwo(body: Body, lightbox: Lightbox, modal: BuildsModal)
    requires lightbox.body == body && modal.body == body
    modifies body, lightbox, modal, modal.thumbs
    ensures modal.show && !lightbox.show && !body.modalOpen
  {
    lightbox.Open("photo.jpg", None);
    modal.Open(0);
    lightbox.Close();
  }
}
