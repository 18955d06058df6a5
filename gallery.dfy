/** The state of builds.js's main IIFE once `init` has run: the id lookup, the listing
    last handed to `openModal` (`current`), the detail modal (`#lh-modal`) with its slider,
    and the schedule section; `init` itself sorts, renders and wires. */
module Gallery {
  import opened Wrappers
  import opened Listings
  import opened Cards
  import opened Sliders
  import opened Cyclic
  import opened Schedule
  import opened Page

  class Gallery {
    const byId: map<string, Home>
    const body: Body
    /** `current`, the listing last passed to `openModal` (None for `undefined`). */
    var current: Option<Home>
    /** `#lh-modal` carries the class `open`. */
    var shown: bool
    /** The modal body last rendered. */
    var detail: Option<DetailView>
    /** The modal's slider, when the rendered listing has at least two photos and the photo
        list is read from the template's content. */
    var slider: PhotoSlider?
    var schedule: Section

    ghost predicate Valid()
      reads this, slider
    {
      slider != null ==> slider.Valid() && detail.Some? && slider.photos == detail.value.photos
    }

    constructor (homes: seq<Home>, body: Body, schedule: Section)
      ensures Valid()
      ensures byId == ById(homes) && this.body == body && this.schedule == schedule
      ensures current == None && !shown && detail == None && slider == null
    {
      byId := ById(homes);
      this.body := body;
      current := None;
      shown := false;
      detail := None;
      slider := null;
      this.schedule := schedule;
    }

    /** `openModal(byId[id])`. An id that resolves to nothing sets `current` to undefined
        and then fails on `home.photos`, so nothing else changes. */
    method OpenModal(id: string)
      requires Valid()
      modifies this, body
      ensures Valid()
      ensures id !in byId ==> current == None && shown == old(shown) && detail == old(detail)
                              && slider == old(slider) && schedule == old(schedule)
                              && body.overflowHidden == old(body.overflowHidden)
      ensures id in byId ==>
                && current == Some(byId[id])
                && shown && body.overflowHidden
                && detail == Some(RenderDetail(byId[id]))
                && (slider != null <==> |byId[id].photos| >= 2)
                && (slider != null ==> fresh(slider) && slider.index == 0)
                && schedule == old(schedule).(refField := if old(schedule).refField.Some?
                                                        then Some(Reference(byId[id])) else None)
      ensures body.modalOpen == old(body.modalOpen) && body.active == old(body.active)
    {
      if id !in byId {
        current := None;
        return;
      }
      var home := byId[id];
      current := Some(home);
      var view := RenderDetail(home);
      detail := Some(view);
      slider := AttachFromContent(view.photos, "lh-mphotos", "Photo 1 of " + OrEmpty(home.address));
      if schedule.refField.Some? {
        schedule := schedule.(refField := Some(Reference(home)));
      }
      shown := true;
      body.overflowHidden := true;
    }

    /** `closeModal()`: drops the class and clears the page's overflow lock, whatever else is open. */
    method CloseModal()
      modifies this`shown, body`overflowHidden
      ensures !shown && !body.overflowHidden
    {
      shown := false;
      body.overflowHidden := false;
    }

    /** A card's "Schedule a Tour" button. */
    method ScheduleFromCard(cardId: string)
      modifies this`schedule
      ensures schedule == ScheduleClick(old(schedule), byId, cardId)
    {
      schedule := ScheduleClick(schedule, byId, cardId);
    }

    /** A click on `#schedule-toggle`. */
    method TogglePanel()
      modifies this`schedule
      ensures schedule == ToggleClick(old(schedule))
    {
      schedule := ToggleClick(schedule);
    }

    /** An event on card `v`, whose slider is `cardSlider` (null when none was wired: as
        builds.js is written, never). A wired arrow's click moves only the card's slider; an
        unwired one's reaches the card and opens the detail view; the schedule button only
        reaches the schedule section. */
    method CardEvent(v: CardView, ev: CardEvent, cardSlider: PhotoSlider?)
      requires Valid() && OnCard(v, ev.target)
      requires cardSlider != null ==> v.hasArrows && cardSlider.Valid()
      requires cardSlider != slider
      modifies this, body, cardSlider
      ensures Valid()
      ensures cardSlider != null ==> cardSlider.Valid()
      ensures body.modalOpen == old(body.modalOpen) && body.active == old(body.active)
      ensures ev.Click? && (ev.target.LeftArrow? || ev.target.RightArrow?) && cardSlider != null ==>
                shown == old(shown) && current == old(current) && schedule == old(schedule)
                && detail == old(detail) && slider == old(slider) && body.overflowHidden == old(body.overflowHidden)
                && cardSlider.index == (if ev.target.LeftArrow? then PrevIndex(old(cardSlider.index), |cardSlider.photos|)
                                        else NextIndex(old(cardSlider.index), |cardSlider.photos|))
      ensures !(ev.Click? && (ev.target.LeftArrow? || ev.target.RightArrow?)) && cardSlider != null ==>
                cardSlider.index == old(cardSlider.index) && cardSlider.shown == old(cardSlider.shown)
      ensures ev.Click? && ev.target.ScheduleButton? ==>
                shown == old(shown) && current == old(current) && detail == old(detail) && slider == old(slider)
                && body.overflowHidden == old(body.overflowHidden)
                && schedule == ScheduleClick(old(schedule), byId, v.dataId)
      ensures OpenDetail(v.dataId) in RouteCardEvent(v, ev, cardSlider != null) && v.dataId in byId ==>
                shown && body.overflowHidden && current == Some(byId[v.dataId])
                && detail == Some(RenderDetail(byId[v.dataId]))
                && (slider != null <==> |byId[v.dataId].photos| >= 2)
                && (slider != null ==> fresh(slider) && slider.index == 0)
                && schedule == old(schedule).(refField := if old(schedule).refField.Some?
                                                        then Some(Reference(byId[v.dataId])) else None)
      ensures OpenDetail(v.dataId) in RouteCardEvent(v, ev, cardSlider != null) && v.dataId !in byId ==>
                current == None && shown == old(shown) && detail == old(detail)
                && body.overflowHidden == old(body.overflowHidden)
      ensures OpenDetail(v.dataId) !in RouteCardEvent(v, ev, cardSlider != null) && !ev.Click? ==>
                shown == old(shown) && current == old(current) && detail == old(detail) && slider == old(slider)
                && schedule == old(schedule) && body.overflowHidden == old(body.overflowHidden)
    {
      var intents := RouteCardEvent(v, ev, cardSlider != null);
      if |intents| > 0 {
        match intents[0]
        case OpenDetail(id) => OpenModal(id);
        case SlidePrev => cardSlider.Prev();
        case SlideNext => cardSlider.Next();
        case ScheduleTour(id) => ScheduleFromCard(id);
        case FollowLink =>
      }
    }
  }

  /** `init`: sorts the catalog in place, renders one card per listing in display order and
      builds the lookup the card handlers use from the sorted list. */
  method Init(homes: array<Home>, body: Body, schedule: Section) returns (g: Gallery, cards: seq<CardView>)
    modifies homes
    ensures homes[..] == SortHomes(old(homes[..]))
    ensures cards == RenderCards(homes[..])
    ensures fresh(g) && g.Valid() && g.byId == ById(homes[..]) && g.schedule == schedule && g.body == body
    ensures g.current == None && !g.shown && g.detail == None && g.slider == null
  {
    SortCatalog(homes);
    cards := RenderCards(homes[..]);
    g := new Gallery(homes[..], body, schedule);
  }
}
