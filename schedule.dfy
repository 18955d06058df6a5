/** The "Schedule a Tour" panel of builds.js: the toggle that opens and collapses it
    (the second IIFE) and the per-card schedule buttons that reveal it and prefill the
    listing reference (`attachScheduleButtons`). */
module Schedule {
  import opened Wrappers
  import opened Text
  import opened Listings

  /** The panel's two classes, which the page's markup may set in any combination. */
  datatype Panel = Panel(isOpen: bool, isCollapsed: bool)

  /** The parts of the page the bridge touches: the panel (`#schedule-tour`), whether the
      toggle (`#schedule-toggle`) exists and its `aria-expanded`, and the listing-reference
      field (`#listing-ref`) with its value. None stands for an element the page lacks. */
  datatype Section = Section(panel: Option<Panel>, hasToggle: bool, ariaExpanded: bool, refField: Option<string>)

  /** The toggle IIFE returns early unless both the toggle and the panel exist. */
  predicate Wired(s: Section) {
    s.hasToggle && s.panel.Some?
  }

  /** The two states the toggle drives the panel between: exactly one class set, and
      `aria-expanded` telling which. */
  predicate Settled(s: Section) {
    s.panel.Some? && s.panel.value.isOpen != s.panel.value.isCollapsed && s.ariaExpanded == s.panel.value.isOpen
  }

  function OpenPanel(s: Section): Section
    requires s.panel.Some?
  {
    s.(panel := Some(Panel(isOpen := true, isCollapsed := false)), ariaExpanded := true)
  }

  function ClosePanel(s: Section): Section
    requires s.panel.Some?
  {
    s.(panel := Some(Panel(isOpen := false, isCollapsed := true)), ariaExpanded := false)
  }

  /** A click on the toggle: an open panel collapses, any other opens. */
  function ToggleClick(s: Section): (r: Section)
    ensures r.refField == s.refField && r.hasToggle == s.hasToggle
    ensures !Wired(s) ==> r == s
    ensures Wired(s) ==> Settled(r) && r.panel.value.isOpen == !s.panel.value.isOpen
  {
    if !Wired(s) then s
    else if s.panel.value.isOpen then ClosePanel(s)
    else OpenPanel(s)
  }

  /** From a settled panel, two clicks restore it. */
  lemma ToggleTwiceRestores(s: Section)
    requires Wired(s) && Settled(s)
    ensures ToggleClick(ToggleClick(s)) == s
  {
  }

  /** A panel carrying both classes is collapsed by the click, though the open class was set. */
  lemma ToggleFromBothClasses(s: Section)
    requires Wired(s) && s.panel.value == Panel(true, true)
    ensures ToggleClick(s).panel == Some(Panel(false, true))
  {
  }

  /** The listing reference `${h.id} — ${h.address}, ${h.city} ${h.state}`, written as is:
      empty parts are not left out and missing ones print "undefined". */
  function Reference(h: Home): (r: string)
    ensures |r| == |Show(h.id)| + |Show(h.address)| + |Show(h.city)| + |Show(h.state)| + 6
    ensures r[..|Show(h.id)| + 3] == Show(h.id) + " \U{2014} "
  {
    Show(h.id) + " \U{2014} " + Show(h.address) + ", " + Show(h.city) + " " + Show(h.state)
  }

  lemma ReferenceExample(h: Home)
    requires h.id == Some("abc") && h.address == Some("1 Main St") && h.city == Some("Springfield") && h.state == Some("IL")
    ensures Reference(h) == "abc \U{2014} 1 Main St, Springfield IL"
  {
  }

  /** An empty city leaves the comma and both spaces in place. */
  lemma ReferenceKeepsEmptyCity(h: Home)
    requires h.id == Some("abc") && h.address == Some("1 Main St") && h.city == Some("") && h.state == Some("IL")
    ensures Reference(h) == "abc \U{2014} 1 Main St,  IL"
  {
  }

  /** The reference leads with the listing's lookup key: its text before the first space
      names the listing again, for an id without spaces. */
  lemma ReferenceLeadsWithKey(h: Home)
    requires ' ' !in Show(h.id)
    ensures Before(Reference(h), ' ') == LookupKey(h)
  {
    var rest := "\U{2014} " + Show(h.address) + ", " + Show(h.city) + " " + Show(h.state);
    assert Reference(h) == Show(h.id) + [' '] + rest;
    BeforeFirst(Show(h.id), ' ', rest);
  }

  /** `id && byId[id]`: the card's id resolves when it is non-empty and names a listing. */
  function Resolve(byId: map<string, Home>, cardId: string): (h: Option<Home>)
    ensures h.Some? <==> cardId != "" && cardId in byId
    ensures h.Some? ==> h.value == byId[cardId]
  {
    if cardId != "" && cardId in byId then Some(byId[cardId]) else None
  }

  /** A card's schedule button: clicks the toggle when the panel is collapsed, then writes
      the reference of the card's listing into the reference field when both exist. */
  function ScheduleClick(s: Section, byId: map<string, Home>, cardId: string): (r: Section)
    ensures r.panel == (if Wired(s) && s.panel.value.isCollapsed then ToggleClick(s).panel else s.panel)
    ensures r.refField == (if s.refField.Some? && Resolve(byId, cardId).Some?
                           then Some(Reference(byId[cardId])) else s.refField)
  {
    var revealed := if Wired(s) && s.panel.value.isCollapsed then ToggleClick(s) else s;
    var h := Resolve(byId, cardId);
    if revealed.refField.Some? && h.Some? then revealed.(refField := Some(Reference(h.value))) else revealed
  }

  /** A collapsed panel is open after the schedule button, and the reference names the card's listing. */
  lemma ScheduleRevealsAndPrefills(s: Section, byId: map<string, Home>, cardId: string)
    requires Wired(s) && s.panel.value == Panel(false, true)
    requires s.refField.Some? && cardId != "" && cardId in byId
    ensures var r := ScheduleClick(s, byId, cardId);
            Settled(r) && r.panel.value.isOpen && r.refField == Some(Reference(byId[cardId]))
  {
  }

  /** An open panel stays as it is: the schedule button never collapses it. */
  lemma ScheduleKeepsOpenPanel(s: Section, byId: map<string, Home>, cardId: string)
    requires s.panel.Some? && !s.panel.value.isCollapsed
    ensures ScheduleClick(s, byId, cardId).panel == s.panel
    ensures ScheduleClick(s, byId, cardId).ariaExpanded == s.ariaExpanded
  {
  }
}
