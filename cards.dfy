/** What builds.js renders for a listing: the card of `renderCard`, the detail view that
    `openModal` writes into the modal, and how a card routes the events that reach it
    (`attachSliders`, `attachScheduleButtons`, `attachCardClicks`). Markup is reduced to
    the facts it carries. */
module Cards {
  import opened Wrappers
  import opened Text
  import opened Formatting
  import opened Listings
  import opened Sliders

  /** A card shows at most this many photos; the detail view shows them all. */
  const MaxCardPhotos := 6

  /** `x || ''` for an optional text field. */
  function OrEmpty(s: Option<string>): string {
    s.GetOr("")
  }

  /** A link or chip that appears only for a non-empty value. */
  function IfText(value: string, text: string): Option<string> {
    if value != "" then Some(text) else None
  }

  datatype CardView = CardView(
    dataId: string,
    ariaLabel: string,
    status: string,
    photos: seq<string>,      // the photo list the card carries for its slider
    image: Option<string>,    // the first photo, or None for the "No photos" placeholder
    hasArrows: bool,
    counter: Option<string>,
    price: string,
    title: string,
    subtitle: string,
    beds: Option<string>,
    baths: Option<string>,
    sqft: Option<string>,
    mlsChip: Option<string>,
    zillowLink: Option<string>)

  function Truncate(photos: seq<string>): (r: seq<string>)
    ensures |r| <= MaxCardPhotos && |r| <= |photos| && r == photos[..|r|]
    ensures |photos| <= MaxCardPhotos ==> r == photos
    ensures |r| >= 2 <==> |photos| >= 2
  {
    if |photos| <= MaxCardPhotos then photos else photos[..MaxCardPhotos]
  }

  /** `renderCard(h)`. */
  function RenderCard(h: Home): (v: CardView)
    ensures |v.photos| <= MaxCardPhotos && |v.photos| <= |h.photos| && v.photos == h.photos[..|v.photos|]
    ensures |h.photos| <= MaxCardPhotos ==> v.photos == h.photos
    ensures v.hasArrows <==> |h.photos| >= 2
    ensures v.counter.Some? <==> v.hasArrows
    ensures v.image.None? <==> |h.photos| == 0 || h.photos[0] == ""
    ensures v.image.Some? ==> v.image.value == h.photos[0]
    ensures v.price == "TBD" <==> h.price.None?
  {
    var photos := Truncate(h.photos);
    var first := if |photos| > 0 then photos[0] else "";
    CardView(
      dataId := OrEmpty(h.id),
      ariaLabel := "View details for " + OrEmpty(h.address),
      status := h.status,
      photos := photos,
      image := if first != "" then Some(first) else None,
      hasArrows := |photos| > 1,
      counter := if |photos| > 1 then Some(Counter(1, |photos|, "/")) else None,
      price := PriceText(h.price),
      title := OrEmpty(h.address),
      subtitle := OrEmpty(h.city) + ", " + OrEmpty(h.state) + " " + OrEmpty(h.zipcode),
      beds := if h.beds.Some? then Some(Plural(h.beds, "Bed")) else None,
      baths := if h.baths.Some? then Some(Plural(h.baths, "Bath")) else None,
      sqft := if h.sqft.Some? then Some(LocaleInt(h.sqft.value) + " sqft") else None,
      mlsChip := IfText(h.mlsNumber, "MLS #" + h.mlsNumber),
      zillowLink := IfText(h.zillowUrl, h.zillowUrl))
  }

  /** The card's counter starts at the first photo and counts the card's photos. */
  lemma CardCounterStartsAtOne(h: Home)
    requires RenderCard(h).hasArrows
    ensures ReadCounter(RenderCard(h).counter.value, "/") == Some((1, |RenderCard(h).photos|))
    ensures 2 <= |RenderCard(h).photos| <= MaxCardPhotos
  {
    CounterRoundTrip(1, |RenderCard(h).photos|, "/");
  }

  /** The rendered grid, `homes.map(renderCard)`: one card per listing, in catalog order. */
  function RenderCards(homes: seq<Home>): (cards: seq<CardView>)
    ensures |cards| == |homes|
    ensures forall k :: 0 <= k < |homes| ==> cards[k] == RenderCard(homes[k])
  {
    seq(|homes|, k requires 0 <= k < |homes| => RenderCard(homes[k]))
  }

  /** What `openModal(home)` writes into the modal body. */
  datatype DetailView = DetailView(
    photos: seq<string>,
    image: Option<string>,
    hasArrows: bool,
    counter: Option<string>,
    heading: string,
    subtitle: string,
    priceLine: string,
    zillowLink: Option<string>)

  function RenderDetail(h: Home): (v: DetailView)
    ensures v.photos == h.photos
    ensures v.hasArrows <==> |h.photos| >= 2
    ensures v.counter.Some? <==> v.hasArrows
  {
    var first := if |h.photos| > 0 then h.photos[0] else "";
    DetailView(
      photos := h.photos,
      image := if first != "" then Some(first) else None,
      hasArrows := |h.photos| > 1,
      counter := if |h.photos| > 1 then Some(Counter(1, |h.photos|, "/")) else None,
      heading := OrEmpty(h.address),
      subtitle := OrEmpty(h.city) + ", " + OrEmpty(h.state) + " " + OrEmpty(h.zipcode),
      priceLine := PriceText(h.price)
                   + (if h.beds.Some? then " \U{2022} " + IntToString(h.beds.value) + " bd" else "")
                   + (if h.baths.Some? then " \U{2022} " + IntToString(h.baths.value) + " ba" else "")
                   + (if h.sqft.Some? then " \U{2022} " + LocaleInt(h.sqft.value) + " sqft" else ""),
      zillowLink := IfText(h.zillowUrl, h.zillowUrl))
  }

  /** The card's photos are the first ones of the detail view's, which are not truncated. */
  lemma CardPhotosPrefixDetail(h: Home)
    ensures var c := RenderCard(h).photos; var d := RenderDetail(h).photos;
            c == d[..|c|] && (|d| > MaxCardPhotos ==> |c| == MaxCardPhotos)
  {
  }

  /** Where on a card an event starts: the card itself (or a non-interactive part of it),
      an arrow of its slider, its "Schedule a Tour" button or its Zillow link. */
  datatype CardTarget = Surface | LeftArrow | RightArrow | ScheduleButton | ZillowLink

  datatype CardEvent = Click(target: CardTarget) | KeyDown(key: string, target: CardTarget)

  /** What an event on a card brings about, in order. */
  datatype CardIntent = OpenDetail(id: string) | SlidePrev | SlideNext | ScheduleTour(cardId: string) | FollowLink

  /** The target exists on the rendered card. */
  predicate OnCard(v: CardView, t: CardTarget) {
    && ((t.LeftArrow? || t.RightArrow?) ==> v.hasArrows)
    && (t.ZillowLink? ==> v.zillowLink.Some?)
  }

  predicate IsActivationKey(key: string) {
    key == "Enter" || key == " "
  }

  /** Event routing on a card. `sliderWired` says whether `attachSliders` gave the card's
      arrows their click handlers. Those handlers stop propagation, so a wired arrow's click
      never reaches the card's click handler; an arrow without a handler is a plain button
      inside the card, so its click bubbles to the card and opens the detail view. The
      schedule-button handler stops propagation too; a link click is not stopped, so it both
      reaches the card and follows the link. A keydown anywhere in the card reaches the
      card's keydown handler, which for Enter and Space opens the detail view and cancels the
      default action, that of a focused nested control included. */
  function RouteCardEvent(v: CardView, ev: CardEvent, sliderWired: bool): (r: seq<CardIntent>)
    requires OnCard(v, ev.target)
    requires sliderWired ==> v.hasArrows
    ensures OpenDetail(v.dataId) in r <==>
              (ev.Click? && (ev.target.Surface? || ev.target.ZillowLink?))
              || (ev.Click? && (ev.target.LeftArrow? || ev.target.RightArrow?) && !sliderWired)
              || (ev.KeyDown? && IsActivationKey(ev.key))
    ensures ev.Click? && ev.target.LeftArrow? && sliderWired ==> r == [SlidePrev]
    ensures ev.Click? && ev.target.RightArrow? && sliderWired ==> r == [SlideNext]
    ensures ev.Click? && (ev.target.LeftArrow? || ev.target.RightArrow?) && !sliderWired ==> r == [OpenDetail(v.dataId)]
    ensures ev.Click? && ev.target.ScheduleButton? ==> r == [ScheduleTour(v.dataId)]
    ensures ev.KeyDown? && !IsActivationKey(ev.key) ==> r == []
  {
    match ev
    case Click(Surface) => [OpenDetail(v.dataId)]
    case Click(LeftArrow) => if sliderWired then [SlidePrev] else [OpenDetail(v.dataId)]
    case Click(RightArrow) => if sliderWired then [SlideNext] else [OpenDetail(v.dataId)]
    case Click(ScheduleButton) => [ScheduleTour(v.dataId)]
    case Click(ZillowLink) => [OpenDetail(v.dataId), FollowLink]
    case KeyDown(key, _) => if IsActivationKey(key) then [OpenDetail(v.dataId)] else []
  }

  /** Whether the card's slider gets wired: its photo list, read back from the card's markup
      as builds.js does (`fromContent` false) or from the template's content, has at least
      two entries. */
  predicate CardSliderWired(v: CardView, fromContent: bool) {
    |ReadPhotos(v.photos, "lh-photos", fromContent)| >= 2
  }

  /** As written, a click on either arrow of a card with two or more photos opens the
      detail view instead of changing the photo. */
  lemma ArrowClickOpensDetailAsWritten(h: Home, t: CardTarget)
    requires |h.photos| >= 2 && (t.LeftArrow? || t.RightArrow?)
    ensures !CardSliderWired(RenderCard(h), false)
    ensures RouteCardEvent(RenderCard(h), Click(t), CardSliderWired(RenderCard(h), false))
            == [OpenDetail(OrEmpty(h.id))]
  {
    ReadFromWrapFindsNothing(RenderCard(h).photos, "lh-photos");
  }

  /** With the photo list read from the template's content, a card's slider is wired exactly
      when it shows arrows, and the arrows change the photo without opening the detail view. */
  lemma ArrowClickSlides(h: Home, t: CardTarget)
    requires |h.photos| >= 2 && (t.LeftArrow? || t.RightArrow?)
    ensures CardSliderWired(RenderCard(h), true) <==> RenderCard(h).hasArrows
    ensures RouteCardEvent(RenderCard(h), Click(t), CardSliderWired(RenderCard(h), true))
            == if t.LeftArrow? then [SlidePrev] else [SlideNext]
  {
    ReadFromContentFindsAll(RenderCard(h).photos, "lh-photos");
  }

  /** Enter or Space on a focused arrow, schedule button or link opens the detail view and
      nothing else: the keyboard handler does not leave nested controls to themselves. */
  lemma ActivationKeyOnControlOpensDetail(v: CardView, key: string, t: CardTarget, sliderWired: bool)
    requires OnCard(v, t) && IsActivationKey(key) && (sliderWired ==> v.hasArrows)
    ensures RouteCardEvent(v, KeyDown(key, t), sliderWired) == [OpenDetail(v.dataId)]
  {
  }

  /** A listing without an id gets the card id "" but the lookup key "undefined": unless
      another listing's id is the empty string, its card resolves to no listing. */
  lemma MissingIdResolvesNothing(homes: seq<Home>, k: nat)
    requires k < |homes| && homes[k].id.None?
    requires forall j :: 0 <= j < |homes| ==> homes[j].id != Some("")
    ensures RenderCard(homes[k]).dataId == ""
    ensures RenderCard(homes[k]).dataId !in ById(homes)
  {
  }
}
