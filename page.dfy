/** The document state that the overlays of builds.js and main.js share. Elements are
    named by numbers. */
module Page {

  class Body {
    /** `document.body` carries the `modal-open` class (main.js overlays). */
    var modalOpen: bool
    /** `document.body.style.overflow` is 'hidden' (the builds.js detail modal). */
    var overflowHidden: bool
    /** `document.activeElement`. */
    var active: nat

    constructor (active: nat)
      ensures !modalOpen && !overflowHidden && this.active == active
    {
      modalOpen := false;
      overflowHidden := false;
      this.active := active;
    }
  }
}
