/** The wrap-around photo sliders of builds.js: one per card with at least two photos
    (`attachSliders`) and one in the detail modal (`openModal`), and how the photo list they
    need is read back from the rendered markup. */
module Sliders {
  import opened Text
  import opened Formatting
  import opened Cyclic

  lemma PrevUndoesNext(i: nat, n: nat)
    requires i < n
    ensures PrevIndex(NextIndex(i, n), n) == i
  {
  }

  lemma NextUndoesPrev(i: nat, n: nat)
    requires i < n
    ensures NextIndex(PrevIndex(i, n), n) == i
  {
  }

  /** The index after `k` presses of the right arrow. */
  function Advance(i: nat, n: nat, k: nat): (j: nat)
    requires i < n
    ensures j < n
  {
    if k == 0 then i else NextIndex(Advance(i, n, k - 1), n)
  }

  lemma {:induction false} AdvanceAdds(i: nat, n: nat, a: nat, b: nat)
    requires i < n
    ensures Advance(i, n, a + b) == Advance(Advance(i, n, a), n, b)
  {
    if b > 0 {
      AdvanceAdds(i, n, a, b - 1);
    }
  }

  /** Before the wrap, each press moves one photo on. */
  lemma {:induction false} AdvanceStraight(i: nat, n: nat, k: nat)
    requires i + k < n
    ensures Advance(i, n, k) == i + k
  {
    if k > 0 {
      AdvanceStraight(i, n, k - 1);
    }
  }

  /** `n` presses of the right arrow come back to the photo shown before. */
  lemma FullTurn(i: nat, n: nat)
    requires i < n
    ensures Advance(i, n, n) == i
  {
    AdvanceStraight(i, n, n - 1 - i);
    assert Advance(i, n, n - i) == 0;
    AdvanceAdds(i, n, n - i, i);
    if i > 0 {
      AdvanceStraight(0, n, i);
    }
  }

  /** The slider's counter: `${i+1}/${n}`. */
  function CounterText(i: nat, n: nat): string {
    Counter(i + 1, n, "/")
  }

  /** A slider over a card's (or the modal's) photo list. `shown`, `alt` and `counter` are
      the image's `src`, its `alt` and the counter's text. */
  class PhotoSlider {
    const photos: seq<string>
    var index: nat
    var shown: string
    var alt: string
    var counter: string

    ghost predicate Valid()
      reads this
    {
      && |photos| >= 2
      && index < |photos|
      && shown == photos[index]
      && counter == CounterText(index, |photos|)
    }

    /** The slider as rendered: the first photo, its initial `alt`, the counter "1/n". */
    constructor (photos: seq<string>, firstAlt: string)
      requires |photos| >= 2
      ensures Valid()
      ensures this.photos == photos && index == 0 && alt == firstAlt
    {
      this.photos := photos;
      index := 0;
      shown := photos[0];
      alt := firstAlt;
      counter := CounterText(0, |photos|);
    }

    /** `update()`: shows `photos[i]` with alt "Photo i+1" and the counter. */
    method Update()
      requires |photos| >= 2 && index < |photos|
      modifies this`shown, this`alt, this`counter
      ensures Valid()
      ensures alt == "Photo " + NatToString(index + 1)
    {
      shown := photos[index];
      alt := "Photo " + NatToString(index + 1);
      counter := CounterText(index, |photos|);
    }

    /** The right arrow. */
    method Next()
      requires Valid()
      modifies this
      ensures Valid()
      ensures index == NextIndex(old(index), |photos|)
      ensures alt == "Photo " + NatToString(index + 1)
    {
      index := (index + 1) % |photos|;
      Update();
    }

    /** The left arrow. */
    method Prev()
      requires Valid()
      modifies this
      ensures Valid()
      ensures index == PrevIndex(old(index), |photos|)
      ensures alt == "Photo " + NatToString(index + 1)
    {
      index := (index - 1 + |photos|) % |photos|;
      Update();
    }
  }

  /** Wires a slider only for a list of at least two photos (`if (photos.length < 2) return`).
      `photos` is the list read back from the markup. */
  method AttachSlider(photos: seq<string>, firstAlt: string) returns (s: PhotoSlider?)
    ensures s != null <==> |photos| >= 2
    ensures s != null ==> fresh(s) && s.Valid() && s.photos == photos && s.index == 0
  {
    if |photos| < 2 {
      return null;
    }
    s := new PhotoSlider(photos, firstAlt);
  }

  /** An element of the rendered markup: tag, classes, text, children, and for a `<template>`
      the separate `content` fragment that holds what its markup wrote. */
  datatype Node = Node(tag: string, classes: set<string>, text: string, children: seq<Node>, content: seq<Node>)

  function Leaf(tag: string, cls: string): Node {
    Node(tag, {cls}, "", [], [])
  }

  /** `photos.map(p => `<span>${p}</span>`)`. */
  function PhotoSpans(photos: seq<string>): (spans: seq<Node>)
    ensures |spans| == |photos|
  {
    if |photos| == 0 then [] else [Node("span", {}, photos[0], [], [])] + PhotoSpans(photos[1..])
  }

  /** The children of a photo wrap, on a card (list class "lh-photos") or in the detail modal
      ("lh-mphotos"): the image, the two arrows and the counter for two or more photos, and
      the `<template>` whose content lists the photos. */
  function WrapChildren(photos: seq<string>, listClass: string): seq<Node> {
    var controls := if |photos| > 1 then [Leaf("button", "left"), Leaf("button", "right"), Leaf("div", "counter")] else [];
    [Leaf("img", "photo")] + controls + [Node("template", {listClass}, "", [], PhotoSpans(photos))]
  }

  /** `querySelectorAll('.<listClass> span')` over `nodes` and their descendants, returning the
      spans' text. A query walks `children` only and never enters a template's `content`.
      `inside` says that an ancestor carries the list class. */
  function QuerySpans(nodes: seq<Node>, listClass: string, inside: bool): seq<string>
    decreases nodes
  {
    if |nodes| == 0 then []
    else
      var n := nodes[0];
      assert n in nodes;
      (if inside && n.tag == "span" then [n.text] else [])
      + QuerySpans(n.children, listClass, inside || listClass in n.classes)
      + QuerySpans(nodes[1..], listClass, inside)
  }

  /** The photo list a slider reads back. builds.js queries the wrap
      (`wrap.querySelectorAll('.lh-photos span')`); the intended reading queries the
      template's fragment (`template.content.querySelectorAll('span')`). */
  function ReadPhotos(photos: seq<string>, listClass: string, fromContent: bool): seq<string> {
    var children := WrapChildren(photos, listClass);
    if fromContent then QuerySpans(children[|children| - 1].content, listClass, true)
    else QuerySpans(children, listClass, false)
  }

  /** Nodes without children hold no span a query from outside a list can reach. */
  lemma {:induction false} ChildlessFindNothing(nodes: seq<Node>, listClass: string)
    requires forall k :: 0 <= k < |nodes| ==> nodes[k].children == []
    ensures QuerySpans(nodes, listClass, false) == []
  {
    if |nodes| > 0 {
      ChildlessFindNothing(nodes[1..], listClass);
    }
  }

  /** A query from inside the list finds every photo's span, in order. */
  lemma {:induction false} SpansFindPhotos(photos: seq<string>, listClass: string)
    ensures QuerySpans(PhotoSpans(photos), listClass, true) == photos
  {
    if |photos| > 0 {
      SpansFindPhotos(photos[1..], listClass);
      assert PhotoSpans(photos)[1..] == PhotoSpans(photos[1..]);
    }
  }

  /** As written, the photo list read from the wrap is always empty: the spans sit in the
      template's content, out of the query's reach. */
  lemma ReadFromWrapFindsNothing(photos: seq<string>, listClass: string)
    ensures ReadPhotos(photos, listClass, false) == []
  {
    ChildlessFindNothing(WrapChildren(photos, listClass), listClass);
  }

  /** Read from the template's content, the list is the rendered photos. */
  lemma ReadFromContentFindsAll(photos: seq<string>, listClass: string)
    ensures ReadPhotos(photos, listClass, true) == photos
  {
    SpansFindPhotos(photos, listClass);
  }

  /** `attachSliders` and the modal slider of `openModal` as written: no slider is ever
      attached, whatever the number of photos. */
  method AttachAsWritten(photos: seq<string>, listClass: string, firstAlt: string) returns (s: PhotoSlider?)
    ensures s == null
  {
    ReadFromWrapFindsNothing(photos, listClass);
    s := AttachSlider(ReadPhotos(photos, listClass, false), firstAlt);
  }

  /** The intended wiring, reading the template's content: a slider over the rendered photos
      exactly when there are at least two. */
  method AttachFromContent(photos: seq<string>, listClass: string, firstAlt: string) returns (s: PhotoSlider?)
    ensures s != null <==> |photos| >= 2
    ensures s != null ==> fresh(s) && s.Valid() && s.photos == photos && s.index == 0
  {
    ReadFromContentFindsAll(photos, listClass);
    s := AttachSlider(ReadPhotos(photos, listClass, true), firstAlt);
  }

  /** A card with four photos: four presses of the right arrow show the first photo again. */
  method FourRightPresses(p0: string, p1: string, p2: string, p3: string) returns (index: nat, shown: string, counter: string)
    ensures index == 0 && shown == p0 && counter == CounterText(0, 4)
  {
    var s := new PhotoSlider([p0, p1, p2, p3], "Photo 1");
    s.Next();
    s.Next();
    s.Next();
    s.Next();
    index, shown, counter := s.index, s.shown, s.counter;
  }
}
