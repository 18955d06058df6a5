# Lafayette Homes listings, overlays and contact handler — a Dafny model

This project models the client-side logic of the Lafayette Homes site and its contact endpoint.

From `builds.js` it models the listings page:
- how the catalog of homes is ordered (status rank, then price descending, unpriced last);
- how prices, bed/bath counts and square footage are written;
- what a card shows (at most six photos; arrows and a counter only with two or more);
- the photo sliders on cards and in the detail modal: as written they are never attached (see Findings); with the photo list read from the template's content they wrap around;
- how clicks and keys on a card are routed;
- the "Schedule a Tour" panel, and the listing reference it prefills;
- the detail modal and its page lock.

From `main.js` it models:
- the focus trap used by both overlays;
- the dark/light theme toggle;
- the homepage lightbox;
- the builds modals with their clamping carousel and per-modal memo.

No overlay counts how many overlays are open. Each `close` clears the body lock directly, and the model keeps that: closing one overlay unlocks the page while another is still shown.

From `api/contact.js` and the older `contact.js` it models the serverless contact handler:
- the POST-only gate, answering 405 with `Allow: POST` as section 15.5.6 of RFC 9110 describes;
- dispatch on the media type, the header text before `;` trimmed (section 8.3.1 of RFC 9110);
- the required-field check;
- the email lines and subject;
- the 303 redirect (section 15.4.4 of RFC 9110) or the 500 on a failed send.

The listing reference is the raw template `${id} — ${address}, ${city} ${state}`: a missing part prints as `undefined` and an empty one leaves a double space.

Modules:
- `Wrappers`: Option.
- `Text`: digits, grouping, split/join, trim.
- `Listings`: the home record, comparator, sort and id lookup.
- `Formatting`: money, plural, counter and square footage.
- `Cards`: card and detail view-models, event routing.
- `Sliders`: the photo slider class.
- `Schedule`: the schedule panel and prefill.
- `Page`: the document body's lock flags and focus.
- `Gallery`: the builds.js page state.
- `FocusTrap`, `Theme` and `Overlays`: main.js.
- `ContactRequest`, `ContactApi` and `ContactLegacy`: the two handlers.

## Model

| member | source | states |
|---|---|---|
| Listings.Rank | builds.js:8-10 | Available ranks 0, Under Contract 1, Sold 2, any other status 9, each as an if-and-only-if |
| Listings.Compare | builds.js:9-14 | negative exactly when a ranks lower, or ties on rank and has a price ahead of b's (higher, or priced against unpriced); zero exactly when rank and price agree |
| Listings.CompareAntisymmetric | builds.js:9-14 | a sorts before b exactly when b sorts after a |
| Listings.PrecedesTransitive | builds.js:9-14 | the "may come first" order is transitive |
| Listings.InsertPermutes | builds.js:9 | one insertion step adds exactly the inserted home to the multiset |
| Listings.InsertSorted | builds.js:9-14 | inserting into a sorted catalog keeps it sorted |
| Listings.SortPermutes | builds.js:9 | the sorted catalog is a permutation of the fetched one |
| Listings.SortSorts | builds.js:9-14 | the sorted catalog is in display order |
| Listings.DisplayOrder | builds.js:9-14 | in the sorted catalog rank never decreases; within a rank an unpriced home is never before a priced one and prices do not increase |
| Listings.InsertKeepsTies | builds.js:9 | an insertion step keeps homes with equal keys in input order |
| Listings.SortStable | builds.js:9 | homes with equal status rank and price keep their input order (a stable sort) |
| Listings.ExampleOrder | builds.js:9-14 | Sold $100,000, Available unpriced, Available $500,000 sort to $500,000, unpriced, Sold |
| Listings.LookupKey | builds.js:80 | a listing's key is its id, or "undefined" when it has none (`String(h.id)`) |
| Listings.ById | builds.js:104 | the lookup's keys are exactly the listings' keys |
| Listings.ByIdResolvesToLast | builds.js:104 | a key resolves to a listing carrying that key (the last one, as with `Object.fromEntries`) |
| Listings.ByIdFindsEach | builds.js:80 | with distinct keys every listing is found under its own key |
| Listings.Insert | builds.js:9 | one insertion step adds exactly one listing |
| Listings.SortHomes | builds.js:9-14 | the sorted catalog has as many listings as the fetched one (that it is the stable sorted permutation is SortPermutes, SortSorts and SortStable) |
| Listings.SortCatalog | builds.js:9-14 | sorting the array in place leaves exactly the display-order sort of its old contents |
| Listings.InsertNext | builds.js:9 | one in-place insertion step: the prefix becomes the insertion, the rest is untouched |
| Listings.InsertAt | builds.js:9 | the insertion lands after the last home that may precede it |
| Text.NatToString | builds.js:29 | non-empty decimal digits, with a leading zero only for 0 |
| Text.ParseNatToString | builds.js:29 | decimal text reads back as the number |
| Text.IntToString | builds.js:29 | a leading '-' exactly for negative numbers |
| Text.IntToStringRoundTrip | builds.js:29 | signed decimal text reads back as the number |
| Text.GroupDigitsRoundTrip | builds.js:27 | removing the thousands separators from grouped digits gives the digits back |
| Text.GroupedRoundTrip | builds.js:27 | en-US grouped notation reads back as the number |
| Text.JoinEnds | api/contact.js:53 | a join starts with its first line and ends with its last |
| Text.SplitJoin | api/contact.js:53 | lines free of the separator, joined and then split, come back unchanged |
| Text.Trim | api/contact.js:9 | the result is a middle slice with only white space cut from either end, and it neither starts nor ends with white space |
| Text.Before | api/contact.js:9 | `split(';')[0]`: the longest prefix without ';', stopped by a ';' when shorter |
| Text.BeforeFirst | api/contact.js:9 | the text before the first ';' is what precedes it |
| Formatting.Usd | builds.js:27 | a dollar amount starts with '$' or '-$' |
| Formatting.Money | builds.js:23-28 | "TBD" exactly for null, undefined, false or a NaN conversion |
| Formatting.UsdRoundTrip | builds.js:27 | every dollar amount written reads back as the number |
| Formatting.MoneyRoundTrip | builds.js:23-28 | for a numeric argument `money` writes an amount that reads back as it |
| Formatting.PriceText | builds.js:46 | "TBD" exactly for a missing price; a price is written so that it reads back as itself |
| Formatting.Plural | builds.js:29 | empty exactly for a missing count; otherwise the text ends with the word, plus "s" unless the count is 1 |
| Formatting.PluralReadsBack | builds.js:29 | empty exactly for a missing count; otherwise the count reads back before the space, followed by the word with an "s" unless the count is 1 |
| Formatting.LeadingDigits | builds.js:71 | the digits at the front of a counter, stopping at the first non-digit |
| Formatting.CounterRoundTrip | builds.js:71 | "i/n" counters read back as their position and total |
| Formatting.LocaleInt | builds.js:52 | a leading '-' exactly for negative numbers, and digits with separators after it (en-US grouping, see Left out) |
| Formatting.LocaleIntRoundTrip | builds.js:52 | a formatted square footage reads back as the number, sign included |
| Cards.RenderCard | builds.js:31-61 | at most six photos, a prefix of the listing's; arrows exactly with two or more and a counter exactly with arrows; no image exactly when the first photo is missing or empty; price "TBD" exactly when unpriced |
| Cards.CardCounterStartsAtOne | builds.js:41 | a card counter reads "1/n" for its 2..6 photos |
| Cards.Truncate | builds.js:32 | at most six photos, the first ones of the listing's; two or more exactly when the listing has two or more |
| Cards.RenderCards | builds.js:16 | one card per listing, in catalog order |
| Cards.RenderDetail | builds.js:113-138 | the detail view keeps every photo, with arrows and counter exactly for two or more |
| Cards.CardPhotosPrefixDetail | builds.js:32 | the card's photos are the first six of the detail view's |
| Cards.RouteCardEvent | builds.js:103-110 | a click opens the detail view exactly on the card surface, the Zillow link or an arrow without a handler; a wired arrow only moves the slider; the schedule button only schedules; keys other than Enter and Space do nothing |
| Cards.ArrowClickOpensDetailAsWritten | builds.js:65-67 | as written no card slider is wired, so an arrow click on a card with two or more photos opens the detail view |
| Cards.ArrowClickSlides | builds.js:72-73 | with the list read from the template's content the slider is wired exactly for cards with arrows, and an arrow click only changes the photo |
| Cards.ActivationKeyOnControlOpensDetail | builds.js:108 | Enter or Space on any control of the card opens the detail view |
| Cards.MissingIdResolvesNothing | builds.js:34 | a listing without an id gets card id "" but key "undefined", so its card resolves to no listing |
| Cyclic.NextIndex | builds.js:73 | the right arrow stays in range and wraps from the last photo to the first |
| Cyclic.PrevIndex | builds.js:72 | the left arrow stays in range and wraps from the first photo to the last |
| Sliders.PrevUndoesNext | builds.js:72-73 | right then left returns to the same photo |
| Sliders.NextUndoesPrev | builds.js:72-73 | left then right returns to the same photo |
| Sliders.Advance | builds.js:73 | k right presses stay in range |
| Sliders.AdvanceAdds | builds.js:73 | a+b presses equal a presses then b presses |
| Sliders.AdvanceStraight | builds.js:73 | presses that do not pass the end just add |
| Sliders.FullTurn | builds.js:73 | n right presses on n photos come back to the start |
| Sliders.PhotoSlider.constructor | builds.js:70 | a slider starts on photo 0 with the rendered alt text |
| Sliders.PhotoSlider.Update | builds.js:71 | shows photos[i], alt "Photo i+1" and counter "i+1/n" |
| Sliders.PhotoSlider.Next | builds.js:73 | moves to the next index with wrap-around and keeps the image, alt and counter in step |
| Sliders.PhotoSlider.Prev | builds.js:72 | moves to the previous index with wrap-around and keeps the image, alt and counter in step |
| Sliders.AttachSlider | builds.js:67-71 | given the list read back, a slider exists exactly when it has at least two photos, and starts at 0 |
| Sliders.PhotoSpans | builds.js:43 | one span per photo |
| Sliders.ChildlessFindNothing | builds.js:65 | a query from outside the list finds no span among nodes without children |
| Sliders.SpansFindPhotos | builds.js:43 | a query inside the list finds every photo's span, in order |
| Sliders.ReadFromWrapFindsNothing | builds.js:65-66 | the photo list read from the wrap, as written, is always empty |
| Sliders.ReadFromContentFindsAll | builds.js:43 | read from the template's content, the list is the rendered photos |
| Sliders.AttachAsWritten | builds.js:141-143 | as written no slider is attached, whatever the number of photos |
| Sliders.AttachFromContent | builds.js:143-150 | read from the template's content, a slider over the photos exists exactly for two or more |
| Sliders.FourRightPresses | builds.js:70-73 | four right presses on four photos show the first photo and "1/4" again |
| Schedule.ToggleClick | builds.js:198-201 | without button and panel nothing changes; otherwise the panel flips open/closed with consistent classes and aria-expanded |
| Schedule.ToggleTwiceRestores | builds.js:184-201 | two toggle clicks restore a settled panel |
| Schedule.ToggleFromBothClasses | builds.js:200 | a panel carrying both classes is closed by a click, since `is-open` is tested first |
| Schedule.Reference | builds.js:96 | the reference is the id, " — ", address, ", ", city, " " and state, with no part left out |
| Schedule.ReferenceLeadsWithKey | builds.js:96 | for an id without spaces, the text before the first space is the listing's lookup key |
| Schedule.ReferenceExample | builds.js:96 | a complete listing yields "abc — 1 Main St, Springfield IL" |
| Schedule.ReferenceKeepsEmptyCity | builds.js:153 | an empty city leaves its double space in the reference |
| Schedule.Resolve | builds.js:94 | a card id resolves exactly when non-empty and in the lookup |
| Schedule.ScheduleClick | builds.js:82-97 | the panel is toggled only when wired and collapsed; the reference field is written only when present and the id resolves |
| Schedule.ScheduleRevealsAndPrefills | builds.js:89-97 | on a collapsed panel the button opens it and writes the reference |
| Schedule.ScheduleKeepsOpenPanel | builds.js:89-91 | on a panel that is not collapsed the button leaves it alone |
| Gallery.Gallery.constructor | builds.js:2-3 | no listing is current and the modal is closed |
| Gallery.Gallery.OpenModal | builds.js:113-156 | an unresolved id clears `current` and stops; otherwise the listing becomes current, the detail view is rendered, a slider (read from the template's content) exists exactly for two or more photos, the reference field is prefilled if present, the modal shows and the page's overflow is hidden |
| Gallery.Gallery.CloseModal | builds.js:164-168 | hides the modal and clears the overflow lock unconditionally |
| Gallery.Gallery.ScheduleFromCard | builds.js:81-97 | a card's schedule button applies the schedule click to the section |
| Gallery.Gallery.TogglePanel | builds.js:198-201 | the toggle button applies the toggle click |
| Gallery.Gallery.CardEvent | builds.js:103-110 | a wired arrow only moves the card's slider, leaving modal, detail, slider and overflow as they were; an unwired arrow opens the detail view; the schedule button only reaches the schedule section; an opening event on a resolvable card shows its listing, wires a fresh modal slider at photo 0 exactly when it has two or more photos, and prefills the tour reference when that field exists; on an unresolved card it changes nothing shown; other keys change nothing |
| Gallery.Init | builds.js:5-19 | sorts the array in place, renders one card per sorted listing and builds the lookup from the sorted list; the modal starts closed with no current listing, no detail and no slider |
| Page.Body.constructor | main.js:75 | the page starts unlocked with the given focus |
| FocusTrap.TrapFocus | main.js:51-62 | ignores every key but Tab; an empty list only cancels the default; Shift+Tab on the first element focuses the last and Tab on the last focuses the first; otherwise nothing changes |
| FocusTrap.DefaultMove | main.js:51-62 | the browser's own move exists exactly when a neighbour is left in that direction |
| FocusTrap.TabCycles | main.js:51-62 | with distinct elements, Tab and Shift+Tab cycle through the list with wrap-around and never leave it |
| FocusTrap.RepeatedElementShortCircuits | main.js:58-60 | when the first and last entries are the same element, Tab on the first jumps back to it |
| Theme.InitialTheme | main.js:24-31 | always dark or light; a saved dark or light wins, otherwise the system preference decides |
| Theme.NextTheme | main.js:36 | always dark or light, and dark exactly when the current theme is not dark |
| Theme.TwoClicksRestore | main.js:35-40 | two clicks restore the theme exactly when it is dark or light |
| Theme.ClicksAlternate | main.js:24-40 | from the starting theme every click changes it and two restore it |
| Theme.ThemeToggle.Apply | main.js:13-21 | the button is pressed exactly for dark and shows the matching label and emoji |
| Theme.ThemeToggle.constructor | main.js:24-32 | the starting theme is applied and the stored preference is untouched |
| Theme.ThemeToggle.Click | main.js:35-40 | the theme flips, is stored under lh_theme and relabels the button |
| Theme.ClickTwice | main.js:35-40 | two clicks bring back the starting theme, which is then stored |
| Overlays.Clamp | main.js:126 | the index stays in range (0 when there are no slides), in-range targets are kept, and targets beyond either end stop there |
| Overlays.RightPressesSaturate | main.js:147 | k right presses reach min(i+k, n-1): the carousel never wraps |
| Overlays.LeftPressesSaturate | main.js:146 | k left presses reach max(i-k, 0) |
| Overlays.OrElseEmpty | main.js:73 | a missing alt becomes the empty string |
| Overlays.Lightbox.constructor | main.js:70 | no saved focus and not shown |
| Overlays.Lightbox.Open | main.js:72-78 | sets image and alt, shows, locks the page, saves focus and focuses the close button |
| Overlays.Lightbox.Close | main.js:79-84 | hides, clears the image, unlocks the page unconditionally and restores the saved focus; it is also the close button's click listener |
| Overlays.Lightbox.Click | main.js:91 | the backdrop listener closes only when the click's target is the lightbox itself (the close button's listener is `Close`); closing clears the image, unlocks the page and returns focus to the saved element |
| Overlays.Lightbox.Key | main.js:92-96 | keys do nothing unless shown; Escape closes, clears the image, unlocks the page and returns focus to the saved element; Tab is trapped |
| Overlays.BuildsModal.constructor | main.js:109-119 | a new modal starts at slide 0, hidden, with no saved focus |
| Overlays.BuildsModal.SetActiveThumb | main.js:122 | exactly the thumb at the index is active |
| Overlays.BuildsModal.GoTo | main.js:125-133 | clamps the index; exactly that thumb is active; the counter reads "i+1 / n"; prev is disabled exactly at 0 and next exactly at n-1 |
| Overlays.BuildsModal.Open | main.js:135-140 | goes to the clamped slide, shows, locks the page, saves focus and focuses the close button |
| Overlays.BuildsModal.Close | main.js:141-144 | hides, unlocks the page unconditionally and restores the saved focus; it is also the close button's click listener |
| Overlays.BuildsModal.ThumbClick | main.js:151 | moves to the thumb when shown, otherwise opens there |
| Overlays.BuildsModal.PrevClick | main.js:146 | goes to the clamped previous slide |
| Overlays.BuildsModal.NextClick | main.js:147 | goes to the clamped next slide |
| Overlays.BuildsModal.Click | main.js:149 | the backdrop listener closes only when the click's target is the modal itself (the close button's listener is `Close`); closing unlocks the page and returns focus to the saved element |
| Overlays.BuildsModal.Key | main.js:159-164 | Escape closes and restores focus; the arrows step with clamping and leave focus and visibility alone; Tab is trapped; keys other than the arrows leave counter, buttons and thumbnails unchanged; the saved focus never changes |
| Overlays.ModalRegistry.constructor | main.js:104 | no modal is wired yet, and the registry invariant holds |
| Overlays.ModalRegistry.InitModal | main.js:106-168 | a missing element yields nothing; a wired element yields its cached modal untouched, still on the shared page body with its index on a slide; otherwise a fresh modal is wired and recorded at slide 0, hidden, with no saved focus, its own thumbs and the layout it was built from; every cached modal keeps the shared body and a valid index |
| Overlays.InitModalTwice | main.js:107 | wiring the same element twice returns the same modal |
| Overlays.CloseOneOfTwo | main.js:79-84 | closing the lightbox unlocks the page while a builds modal is still shown |
| ContactRequest.OrDefault | api/contact.js:37 | a truthy field's value, otherwise the default |
| ContactRequest.ReadBody | api/contact.js:6-8 | the body is every chunk, in arrival order, concatenated |
| ContactRequest.ChunkInBody | api/contact.js:7-8 | each chunk appears whole in the body, after the chunks before it |
| ContactRequest.MediaType | api/contact.js:9 | no header gives ""; the media type holds no ';' and neither starts nor ends with white space |
| ContactRequest.ParseBody | api/contact.js:9-18 | JSON media type: the parsed object, or no fields when malformed; form media type: the query-string fields; anything else: no fields |
| ContactRequest.ParametersIgnored | api/contact.js:9 | parameters after ';' do not change the media type |
| ContactRequest.PlainMediaType | api/contact.js:9 | a bare media type is its own media type |
| ContactRequest.PlainWithParameters | api/contact.js:9 | a bare media type followed by parameters yields the bare type |
| ContactRequest.JsonWithParameters | api/contact.js:9-12 | a JSON body is read whatever parameters follow the media type |
| ContactRequest.CaseMatters | api/contact.js:11-17 | "Application/JSON" does not match, so it yields no fields |
| ContactRequest.Submitted | api/contact.js:5-18 | the fields of the concatenated body, by media type |
| ContactRequest.Delivered | api/contact.js:56-61 | a sent message with a redirect target `setHeader` accepts gives 303 with Location set to it; a target it rejects, or a failed send, gives 500 with the retry message; the message was handed over either way |
| ContactRequest.ThankYouValid | api/contact.js:56 | the thank-you address is a valid header value |
| ContactRequest.ThankYouRedirects | api/contact.js:56-58 | without `_redirect` a sent message gets the 303 to the thank-you page |
| ContactRequest.BrokenRedirectFailsAfterSending | api/contact.js:56-61 | a `_redirect` with a line break gives the 500 after the message went out |
| ContactApi.Recorded | api/contact.js:27-46 | the required fields are carried as submitted, the source is never empty, and each listing field is carried exactly when truthy |
| ContactApi.Optional | api/contact.js:43-45 | a listing field is carried exactly when truthy |
| ContactApi.Lines | api/contact.js:36-46 | the body has 8 to 11 lines |
| ContactApi.AssembleLines | api/contact.js:36-46 | the pushes build exactly the line list of the recorded inquiry |
| ContactApi.ReadOptionalRoundTrip | api/contact.js:43-45 | the optional listing lines read back as the listing fields |
| ContactApi.LinesRoundTrip | api/contact.js:36-46 | the lines read back as the inquiry they were written from |
| ContactApi.EmailText | api/contact.js:53 | the text opens with the Source line and ends with the message |
| ContactApi.EmailTextRoundTrip | api/contact.js:53 | without line breaks in the values, the email text reads back as the submitted inquiry with its defaults |
| ContactApi.JoinBreak | api/contact.js:53 | a line holding a break joins like two lines |
| ContactApi.CityBreakForgesListing | api/contact.js:41-45 | a line break in the city reads back as a listing id nobody submitted |
| ContactApi.Subject | api/contact.js:52 | the subject opens with "New inquiry (" and ends with the sender's name |
| ContactApi.Compose | api/contact.js:48-54 | the message goes from the site sender to the inbox, replies to the submitted email, and has the subject with its mojibake dash and the text body built from the fields |
| ContactApi.Handle | api/contact.js:20-63 | non-POST gives 405 with Allow: POST; missing name, email or message gives 400; a send is attempted exactly for POST with the required fields; 303 exactly when the send succeeds and the redirect target is a valid header value, else 500 |
| ContactApi.Serve | api/contact.js:20-63 | the handler reads the body only after the method gate and answers as Handle |
| ContactLegacy.Lines | contact.js:42-50 | the body is exactly seven lines |
| ContactLegacy.LegacyIsApiCore | contact.js:42-50 | the seven lines are the newer body without its Source and listing lines |
| ContactLegacy.EmailTextRoundTrip | contact.js:42-50 | without line breaks the text splits back into the seven lines, the message last |
| ContactLegacy.Compose | contact.js:37-51 | same sender, inbox and reply-to as the newer handler; the subject is "New inquiry from " and the name; the text body is built from the fields |
| ContactLegacy.Handle | contact.js:21-61 | 405 with Allow: POST for non-POST; 400 for missing fields; the send is attempted exactly otherwise; 303 exactly when it succeeds and the redirect target is a valid header value, else 500 |
| ContactLegacy.Serve | contact.js:21-61 | reads the body only after the gate and answers as Handle |
| ContactLegacy.SameDecisions | contact.js:21-61 | both handlers give every request the same status, headers and response body, and the same inbox and reply-to |

## Left out

- Fetching `availableHomes.json` is left out as network I/O: the catalog is an input. Also left out: `setTimeout`, `scrollIntoView` and `requestAnimationFrame`; the latter's `goTo(index)` repeats a clamped index and so changes nothing. Also left out: `history.replaceState`, `location.hash`, and the auto-open on `#schedule`.
- Markup is left out: cards and the detail modal are view-model records holding the facts the templates write, not HTML.
- Slide offsets, `translate3d`, transition durations and the resize handler are left out; they are layout pixels.
- The visibility filter of `getFocusable` is left out: the focusable elements are an input sequence of element identities.
- `localStorage` and `matchMedia` are inputs and fields of the theme model, not I/O.
- The header and nav drawer code at the end of main.js is left out, and nav.js is not part of this model.
- The Resend client, `JSON.parse` and `querystring.parse` are left out. The parsers are function parameters, and the send is an outcome parameter.
- UTF-8 decoding of the body is left out: the parsers receive the raw bytes.
- Prices, counts and square footage are integers. Fractional values and numbers of 1e21 or more, which JavaScript writes in exponent form, are not modelled.
- A JSON `null` text field and a missing one are both absent. This covers listings too: a `null` address, city or state would print "null" in the template of builds.js:96 and builds.js:153, but `Schedule.Reference` prints "undefined" for it, as for a missing one.
- The `console.error` call that both contact handlers make when the send fails (api/contact.js:60, contact.js:58) is left out as logging I/O; the response they return is modelled.
- Submitted field values are strings. Repeated form keys (arrays) and non-string JSON values are not modelled.
- Status strings naming `Object.prototype` members (such as "toString") are not modelled; they would make the comparator return NaN. Lookup keys of that kind are not modelled either.
- The "Schedule a Tour" button inside the detail modal gets one more click listener at every `openModal`. Only the effect of one click, closing the modal, is modelled (`Gallery.Gallery.CloseModal`).
- When a listing has two or more photos and the first is empty, the modal slider of the corrected wiring would write `src` on a missing image element and throw. The model stops at the rendered view.
- A builds modal without a close button throws on `open`; the model always has one.
- Formatting.LocaleInt: `Number(h.sqft).toLocaleString()` takes the visitor's default locale. The model fixes en-US grouping ("1,234"); other locales group differently ("1.234", "1 234").
- Card and modal markup is modelled only as far as the slider's query reads it: the wrap's children and the template's content.
- Theme.ThemeToggle.Apply: lower-casing `data-theme` before comparing is not modelled, because the attribute only ever holds "dark" or "light" here.

## Findings

| source | as written | input that shows it | evidently intended | confidence | as-written member | corrected member |
|---|---|---|---|---|---|---|
| builds.js:65-67 | the card's photo list is queried from the wrap, but its spans live in the `<template>`'s content, so the list is empty, no card slider is wired, and an arrow click bubbles to the card | a listing with photos "a.jpg" and "b.jpg": a click on its card's right arrow opens the detail view | read the spans from `template.content`, so that the arrows change the photo | high (not executed) | Cards.ArrowClickOpensDetailAsWritten | Cards.ArrowClickSlides |
| builds.js:141-143 | the modal's photo list is queried the same way, so the modal arrows never get a handler | a listing with photos "a.jpg" and "b.jpg": the modal arrows do nothing | read the spans from `template.content` | high (not executed) | Sliders.AttachAsWritten | Sliders.AttachFromContent |
