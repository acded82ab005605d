/** The collection grid standardization engine: it normalises product cards
    in place (marker classes, inline styles, lazy loading, a placeholder for
    a missing image), guards against re-entry with a processing set, and
    batches node insertions reported by a mutation observer into one pass
    behind a single pending timer slot.

    Selector matching is the browser's and is not modelled: the result of
    each query a card answers (its image wrapper, the wrapper's image, its
    title and price) is a constant field of the card, and an inserted node
    carries whether it matches the item selector and the item elements
    below it. The marker classes the engine adds are matched by none of the
    selectors, so standardization never changes those query results. */
module GridStandardization {
  import opened Wrappers

  const ItemMarker: string := "grid-item--standardized"
  const WrapperMarker: string := "image-wrapper--standardized"
  const ImageMarker: string := "product-image--standardized"
  const TitleMarker: string := "product-title--standardized"
  const PriceMarker: string := "product-price--standardized"
  const AspectRatio: string := "4/5"
  const NoImageSentinel: string := "no-image"
  const ListItemKeys: set<string> := {"listStyle", "margin", "padding", "display", "flexDirection"}
  const ImageKeys: set<string> := {"objectFit", "objectPosition"}

  // ---------------------------------------------------------------------
  // Values the standardizer writes
  // ---------------------------------------------------------------------

  /** The inline layout of a list item: no bullet, no margin or padding, a
      column flexbox. */
  function ListItemStyle(style: map<string, string>): map<string, string>
  {
    style["listStyle" := "none"]["margin" := "0"]["padding" := "0"]["display" := "flex"]["flexDirection" := "column"]
  }

  /** Every other property of a list item is kept. */
  lemma ListItemStyleSpec(style: map<string, string>)
    ensures ListItemStyle(style).Keys == style.Keys + ListItemKeys
    ensures var r := ListItemStyle(style);
      r["listStyle"] == "none" && r["margin"] == "0" && r["padding"] == "0" &&
      r["display"] == "flex" && r["flexDirection"] == "column"
    ensures forall k :: k in style && k !in ListItemKeys ==> ListItemStyle(style)[k] == style[k]
  {
  }

  /** The style an item gets: the list-item layout only for an LI element,
      the style as it was for any other tag. */
  function ItemStyle(tagName: string, style: map<string, string>): map<string, string>
  {
    if tagName == "LI" then ListItemStyle(style) else style
  }

  /** Only a list item is restyled; any other item keeps its style. */
  lemma ItemStyleSpec(tagName: string, style: map<string, string>)
    ensures tagName != "LI" ==> ItemStyle(tagName, style) == style
    ensures tagName == "LI" ==> ItemStyle(tagName, style) == ListItemStyle(style)
  {
  }

  /** An image fills its box, cropped and centred. */
  function ImageStyle(style: map<string, string>): map<string, string>
  {
    style["objectFit" := "cover"]["objectPosition" := "center"]
  }

  /** Every other property of an image is kept. */
  lemma ImageStyleSpec(style: map<string, string>)
    ensures ImageStyle(style).Keys == style.Keys + ImageKeys
    ensures ImageStyle(style)["objectFit"] == "cover" && ImageStyle(style)["objectPosition"] == "center"
    ensures forall k :: k in style && k !in ImageKeys ==> ImageStyle(style)[k] == style[k]
  {
  }

  /** The loading attribute is added as "lazy" only when it is missing. */
  function LazyLoading(attributes: map<string, string>): map<string, string>
  {
    if "loading" in attributes then attributes else attributes["loading" := "lazy"]
  }

  /** A loading value already there is never overwritten, and no other
      attribute changes. */
  lemma LazyLoadingSpec(attributes: map<string, string>)
    ensures LazyLoading(attributes).Keys == attributes.Keys + {"loading"}
    ensures LazyLoading(attributes)["loading"] == if "loading" in attributes then attributes["loading"] else "lazy"
    ensures forall k :: k in attributes ==> LazyLoading(attributes)[k] == attributes[k]
  {
  }

  /** Standardizing styles and attributes twice writes nothing new. */
  lemma StyleUpdatesIdempotent(style: map<string, string>, attributes: map<string, string>)
    ensures ListItemStyle(ListItemStyle(style)) == ListItemStyle(style)
    ensures ImageStyle(ImageStyle(style)) == ImageStyle(style)
    ensures style["aspectRatio" := AspectRatio]["aspectRatio" := AspectRatio] == style["aspectRatio" := AspectRatio]
    ensures LazyLoading(LazyLoading(attributes)) == LazyLoading(attributes)
  {
  }

  /** sub occurs in s starting at position i. */
  predicate OccursAt(s: string, sub: string, i: int)
  {
    0 <= i <= |s| - |sub| && s[i..i + |sub|] == sub
  }

  /** String.prototype.includes (from position 0): some position of s
      starts an occurrence of sub. */
  predicate Contains(s: string, sub: string)
  {
    exists i :: 0 <= i <= |s| - |sub| && OccursAt(s, sub, i)
  }

  // ---------------------------------------------------------------------
  // The elements of a product card
  // ---------------------------------------------------------------------

  /** A title or a price element. */
  class Label {
    var classes: set<string>

    constructor (classes: set<string>)
      ensures this.classes == classes
    {
      this.classes := classes;
    }
  }

  /** An img element; src is its resolved source, empty when it has none. */
  class Image {
    const src: string
    var classes: set<string>
    var style: map<string, string>
    var attributes: map<string, string>
    /** error listeners attached and not yet fired */
    var errorListeners: nat

    constructor (src: string, classes: set<string>, style: map<string, string>, attributes: map<string, string>)
      ensures this.src == src && this.classes == classes && this.style == style
      ensures this.attributes == attributes && errorListeners == 0
    {
      this.src := src;
      this.classes, this.style, this.attributes := classes, style, attributes;
      errorListeners := 0;
    }

    predicate IsStandardized()
      reads this
    {
      && ImageMarker in classes && ImageKeys <= style.Keys
      && style["objectFit"] == "cover" && style["objectPosition"] == "center"
      && "loading" in attributes
    }
  }

  /** An image wrapper; image is its first img, placeholders the number of
      placeholder elements inside it. */
  class ImageWrapper {
    const image: Image?
    var classes: set<string>
    var style: map<string, string>
    var placeholders: nat

    constructor (image: Image?, classes: set<string>, style: map<string, string>, placeholders: nat)
      ensures this.image == image && this.classes == classes && this.style == style
      ensures this.placeholders == placeholders
    {
      this.image := image;
      this.classes, this.style, this.placeholders := classes, style, placeholders;
    }

    /** The marker, the aspect ratio, and a placeholder when one is needed. */
    predicate IsStandardized()
      reads this
    {
      WrapperMarker in classes && "aspectRatio" in style && style["aspectRatio"] == AspectRatio &&
      (NeedsPlaceholder(this) ==> placeholders >= 1)
    }
  }

  /** A wrapper needs a placeholder when it has no image, the image has no
      source, or the source names the shop's no-image picture. */
  predicate NeedsPlaceholder(wrapper: ImageWrapper)
  {
    wrapper.image == null || wrapper.image.src == [] || Contains(wrapper.image.src, NoImageSentinel)
  }

  /** A grid item: an element matching the item selector, with the first
      image wrapper, title and price element found inside it. */
  class Card {
    const tagName: string
    const wrapper: ImageWrapper?
    const title: Label?
    const price: Label?
    var classes: set<string>
    var style: map<string, string>

    constructor (tagName: string, wrapper: ImageWrapper?, title: Label?, price: Label?,
                 classes: set<string>, style: map<string, string>)
      ensures this.tagName == tagName && this.wrapper == wrapper
      ensures this.title == title && this.price == price
      ensures this.classes == classes && this.style == style
    {
      this.tagName, this.wrapper, this.title, this.price := tagName, wrapper, title, price;
      this.classes, this.style := classes, style;
    }

    /** The objects standardizing this card may change. */
    function Footprint(): (fp: set<object>)
      ensures this in fp
    {
      {this} +
      (if wrapper == null then {} else {wrapper} + (if wrapper.image == null then {} else {wrapper.image})) +
      (if title == null then {} else {title}) +
      (if price == null then {} else {price})
    }

    /** The markers a label of this card gets: the title marker if it is the
        title, the price marker if it is the price (one element may be
        both). */
    function LabelMarkers(element: Label): (r: set<string>)
      ensures element == title ==> TitleMarker in r
      ensures element == price ==> PriceMarker in r
      ensures element != title && element != price ==> r == {}
    {
      (if element == title then {TitleMarker} else {}) + (if element == price then {PriceMarker} else {})
    }

    /** The state a standardization pass leaves this card in. */
    predicate IsStandardized()
      reads Footprint()
    {
      ItemDone() && WrapperDone() && LabelsDone()
    }

    /** The card's own marker, and the list-item layout for an LI. */
    predicate ItemDone()
      reads this
    {
      && ItemMarker in classes
      && (tagName == "LI" ==>
            && ListItemKeys <= style.Keys
            && style["listStyle"] == "none" && style["margin"] == "0" && style["padding"] == "0"
            && style["display"] == "flex" && style["flexDirection"] == "column")
    }

    predicate WrapperDone()
      reads Footprint()
    {
      && (wrapper != null ==> wrapper.IsStandardized())
      && (wrapper != null && wrapper.image != null ==> wrapper.image.IsStandardized())
    }

    predicate LabelsDone()
      reads Footprint()
    {
      && (title != null ==> TitleMarker in title.classes)
      && (price != null ==> PriceMarker in price.classes)
    }
  }

  // ---------------------------------------------------------------------
  // Mutation records
  // ---------------------------------------------------------------------

  /** A node a mutation inserted: a node that is not an element (text,
      comment), or an element, with itself as a card when it matches the
      item selector and the cards that match it below it, in document
      order. */
  datatype AddedNode = OtherNode | ElementNode(asItem: Option<Card>, itemsBelow: seq<Card>)

  datatype MutationRecord = MutationRecord(addedNodes: seq<AddedNode>)

  function Elems(s: seq<Card>): set<Card>
  {
    set c | c in s
  }

  /** The cards one inserted node contributes. */
  function NodeItems(node: AddedNode): set<Card>
  {
    match node
    case OtherNode => {}
    case ElementNode(asItem, below) => (if asItem.Some? then {asItem.value} else {}) + Elems(below)
  }

  function NodesItems(nodes: seq<AddedNode>): set<Card>
  {
    if nodes == [] then {} else NodesItems(nodes[..|nodes| - 1]) + NodeItems(nodes[|nodes| - 1])
  }

  /** The cards a batch of mutation records contributes: every inserted
      element matching the item selector and every matching element below
      an inserted element. */
  function BatchItems(mutations: seq<MutationRecord>): set<Card>
  {
    if mutations == [] then {}
    else BatchItems(mutations[..|mutations| - 1]) + NodesItems(mutations[|mutations| - 1].addedNodes)
  }

  lemma ElemsAppend(s: seq<Card>, c: Card)
    ensures Elems(s + [c]) == Elems(s) + {c}
  {
  }

  predicate Distinct(s: seq<Card>)
  {
    forall i, j :: 0 <= i < j < |s| ==> s[i] != s[j]
  }

  /** The flush's first half: gather the cards of a batch into an
      insertion-ordered set. */
  method CollectAddedItems(mutations: seq<MutationRecord>) returns (items: seq<Card>)
    ensures Distinct(items)
    ensures Elems(items) == BatchItems(mutations)
  {
    items := [];
    for i := 0 to |mutations|
      invariant Distinct(items)
      invariant Elems(items) == BatchItems(mutations[..i])
    {
      var nodes := mutations[i].addedNodes;
      for j := 0 to |nodes|
        invariant Distinct(items)
        invariant Elems(items) == BatchItems(mutations[..i]) + NodesItems(nodes[..j])
      {
        items := AddNodeItems(items, nodes[j]);
        assert nodes[..j + 1][..j] == nodes[..j];
      }
      assert nodes[..|nodes|] == nodes;
      assert mutations[..i + 1][..i] == mutations[..i];
    }
    assert mutations[..|mutations|] == mutations;
  }

  /** Set.prototype.add on an insertion-ordered set: a card already there
      keeps its place, a new one goes last. */
  method AddItem(items: seq<Card>, c: Card) returns (r: seq<Card>)
    requires Distinct(items)
    ensures Distinct(r) && Elems(r) == Elems(items) + {c}
    ensures items <= r && r == if c in items then items else items + [c]
  {
    ElemsAppend(items, c);
    r := if c in items then items else items + [c];
  }

  /** One inserted node's contribution to the insertion-ordered set: the
      node itself when it is an item, then the items below it. */
  method AddNodeItems(items: seq<Card>, node: AddedNode) returns (r: seq<Card>)
    requires Distinct(items)
    ensures Distinct(r) && Elems(r) == Elems(items) + NodeItems(node)
    ensures items <= r
    ensures node.ElementNode? && node.asItem.Some? && node.asItem.value !in items ==>
      |items| < |r| && r[|items|] == node.asItem.value
  {
    r := items;
    match node {
      case OtherNode =>
      case ElementNode(asItem, below) =>
        if asItem.Some? {
          r := AddItem(r, asItem.value);
        }
        r := AddAll(r, below);
    }
  }

  /** The forEach that adds every item found below an inserted node. */
  method AddAll(items: seq<Card>, cards: seq<Card>) returns (r: seq<Card>)
    requires Distinct(items)
    ensures Distinct(r) && Elems(r) == Elems(items) + Elems(cards)
    ensures items <= r
  {
    r := items;
    for k := 0 to |cards|
      invariant Distinct(r) && items <= r
      invariant Elems(r) == Elems(items) + Elems(cards[..k])
    {
      r := AddItem(r, cards[k]);
      assert cards[..k + 1] == cards[..k] + [cards[k]];
      ElemsAppend(cards[..k], cards[k]);
    }
    assert cards[..|cards|] == cards;
  }

  /** The cards of a list of grids in document order, grid after grid. */
  function Flatten(grids: seq<seq<Card>>): seq<Card>
  {
    if grids == [] then [] else Flatten(grids[..|grids| - 1]) + grids[|grids| - 1]
  }

  /** Everything standardizing a set of cards may change. */
  function CardsFootprint(cards: set<Card>): set<object>
  {
    set c, o | c in cards && o in c.Footprint() :: o
  }

  /** Everything standardizing the cards of a list may change. */
  function ItemsFootprint(items: seq<Card>): set<object>
  {
    if items == [] then {} else ItemsFootprint(items[..|items| - 1]) + items[|items| - 1].Footprint()
  }

  lemma {:induction false} ItemFootprintWithin(items: seq<Card>, i: nat)
    requires i < |items|
    ensures items[i].Footprint() <= ItemsFootprint(items)
  {
    if i < |items| - 1 {
      ItemFootprintWithin(items[..|items| - 1], i);
    }
  }

  lemma {:induction false} FootprintsWithin(items: seq<Card>, cards: set<Card>)
    requires forall c :: c in items ==> c in cards
    ensures ItemsFootprint(items) <= CardsFootprint(cards)
  {
    if items != [] {
      var last := items[|items| - 1];
      assert last in items;
      FootprintsWithin(items[..|items| - 1], cards);
      FootprintWithin(last, cards);
    }
  }

  /** Appending the next grid to a log of the grids before it. */
  lemma FlattenStep(log: seq<Card>, grids: seq<seq<Card>>, i: nat)
    requires i < |grids|
    ensures log + Flatten(grids[..i]) + grids[i] == log + Flatten(grids[..i + 1])
  {
    assert grids[..i + 1][..i] == grids[..i];
  }

  /** Everything standardizing the cards of a list of grids may change. */
  function GridsFootprint(grids: seq<seq<Card>>): set<object>
  {
    if grids == [] then {} else GridsFootprint(grids[..|grids| - 1]) + ItemsFootprint(grids[|grids| - 1])
  }

  lemma {:induction false} GridFootprintWithin(grids: seq<seq<Card>>, i: nat)
    requires i < |grids|
    ensures ItemsFootprint(grids[i]) <= GridsFootprint(grids)
  {
    if i < |grids| - 1 {
      GridFootprintWithin(grids[..|grids| - 1], i);
    }
  }

  /** The engine is no part of any card. */
  lemma {:induction false} EngineOutside(engine: CollectionGridStandardization, items: seq<Card>)
    ensures engine !in ItemsFootprint(items)
  {
    if items != [] {
      EngineOutside(engine, items[..|items| - 1]);
    }
  }

  /** The engine is no part of any card, so writing its own fields changes
      no card's state. */
  lemma EngineOutsideCards(engine: CollectionGridStandardization)
    ensures forall c: Card :: engine !in c.Footprint()
  {
  }

  lemma {:induction false} EngineOutsideGrids(engine: CollectionGridStandardization, grids: seq<seq<Card>>)
    ensures engine !in GridsFootprint(grids)
  {
    if grids != [] {
      EngineOutsideGrids(engine, grids[..|grids| - 1]);
      EngineOutside(engine, grids[|grids| - 1]);
    }
  }

  /** Appending the next item of a list to a log of its prefix. */
  lemma LogStep(log: seq<Card>, items: seq<Card>, i: nat)
    requires i < |items|
    ensures log + items[..i] + [items[i]] == log + items[..i + 1]
  {
    assert items[..i + 1] == items[..i] + [items[i]];
  }

  lemma FootprintWithin(c: Card, cards: set<Card>)
    requires c in cards
    ensures c.Footprint() <= CardsFootprint(cards)
  {
  }

  // ---------------------------------------------------------------------
  // What one standardization step does to an element
  // ---------------------------------------------------------------------

  /** standardizeImage: the marker class, a cover fit centred, lazy loading
      when no loading attribute is set, and one more error listener (a new
      one is attached on every call). */
  twostate predicate ImageStandardized(img: Image)
    reads img
  {
    && img.classes == old(img.classes) + {ImageMarker}
    && img.style == ImageStyle(old(img.style))
    && img.attributes == LazyLoading(old(img.attributes))
    && img.errorListeners == old(img.errorListeners) + 1
  }

  /** standardizeImageWrapper: the marker class, the 4/5 aspect ratio, and
      its image, if any, standardized. */
  twostate predicate WrapperStandardized(wrapper: ImageWrapper)
    reads wrapper, wrapper.image
  {
    && wrapper.classes == old(wrapper.classes) + {WrapperMarker}
    && wrapper.style == old(wrapper.style)["aspectRatio" := AspectRatio]
    && (wrapper.image != null ==> ImageStandardized(wrapper.image))
  }

  /** The placeholder count after addImagePlaceholder: one is appended only
      when there is none, so a wrapper that had at most one has exactly one. */
  function PlaceholdersAfterAdd(placeholders: nat): (r: nat)
    ensures placeholders > 0 ==> r == placeholders
    ensures placeholders == 0 ==> r == 1
    ensures r >= 1 && r >= placeholders
  {
    if placeholders > 0 then placeholders else placeholders + 1
  }

  /** What standardizeGridItem does to a card that is not being processed:
      the marker class, the list-item layout for an LI, the wrapper and its
      image standardized, a placeholder when the wrapper needs one, and the
      title and price markers. */
  twostate predicate CardStandardized(item: Card)
    reads item.Footprint()
  {
    && item.classes == old(item.classes) + {ItemMarker}
    && item.style == ItemStyle(item.tagName, old(item.style))
    && (item.wrapper != null ==>
          && WrapperStandardized(item.wrapper)
          && item.wrapper.placeholders ==
               if NeedsPlaceholder(item.wrapper) then PlaceholdersAfterAdd(old(item.wrapper.placeholders))
               else old(item.wrapper.placeholders))
    && (item.title != null ==> item.title.classes == old(item.title.classes) + item.LabelMarkers(item.title))
    && (item.price != null ==> item.price.classes == old(item.price.classes) + item.LabelMarkers(item.price))
  }

  /** A standardization pass leaves its card in the standardized state. */
  twostate lemma StandardizedState(item: Card)
    requires CardStandardized(item)
    ensures item.IsStandardized()
  {
    if item.tagName == "LI" {
      ListItemStyleSpec(old(item.style));
    }
    if item.wrapper != null && item.wrapper.image != null {
      ImageStyleSpec(old(item.wrapper.image.style));
    }
  }

  /** The only card, wrapper, image and labels standardizing a card may
      change are its own. */
  lemma FootprintMembers(item: Card)
    ensures forall c: Card :: c in item.Footprint() ==> c == item
    ensures forall w: ImageWrapper :: w in item.Footprint() ==> w == item.wrapper
    ensures forall img: Image :: img in item.Footprint() ==> item.wrapper != null && img == item.wrapper.image
    ensures forall l: Label :: l in item.Footprint() ==> l == item.title || l == item.price
  {
  }

  /** A pass on the first card of the pair keeps the second in the
      standardized state when it already was, whatever the two share: the
      pass only adds classes, writes fixed style values, keeps an existing
      loading attribute and never lowers a placeholder count. (One pair
      parameter rather than two card parameters, which the verifier's
      encoding of two-state lemmas does not accept here.) */
  twostate lemma PassKeepsCard(pair: (Card, Card))
    requires CardStandardized(pair.0)
    requires var item, c := pair.0, pair.1;
      && (c == item || (c.classes == old(c.classes) && c.style == old(c.style)))
      && (c.wrapper == null || c.wrapper == item.wrapper ||
          (c.wrapper.classes == old(c.wrapper.classes) && c.wrapper.style == old(c.wrapper.style) &&
           c.wrapper.placeholders == old(c.wrapper.placeholders)))
      && (c.wrapper == null || c.wrapper.image == null ||
          (item.wrapper != null && c.wrapper.image == item.wrapper.image) ||
          (c.wrapper.image.classes == old(c.wrapper.image.classes) && c.wrapper.image.style == old(c.wrapper.image.style) &&
           c.wrapper.image.attributes == old(c.wrapper.image.attributes)))
      && (c.title == null || c.title == item.title || c.title == item.price || c.title.classes == old(c.title.classes))
      && (c.price == null || c.price == item.title || c.price == item.price || c.price.classes == old(c.price.classes))
    ensures old(pair.1.IsStandardized()) ==> pair.1.IsStandardized()
  {
    var item, c := pair.0, pair.1;
    StandardizedState(item);
    if item.wrapper != null && item.wrapper.image != null {
      ImageStyleSpec(old(item.wrapper.image.style));
    }
  }

  /** A pass on one card keeps every card that was standardized in that
      state. */
  twostate lemma PassKeepsStandardized(item: Card)
    requires CardStandardized(item)
    requires forall c: Card :: old(allocated(c)) && c !in item.Footprint() ==> c.classes == old(c.classes) && c.style == old(c.style)
    requires forall w: ImageWrapper :: old(allocated(w)) && w !in item.Footprint() ==>
      w.classes == old(w.classes) && w.style == old(w.style) && w.placeholders == old(w.placeholders)
    requires forall img: Image :: old(allocated(img)) && img !in item.Footprint() ==>
      img.classes == old(img.classes) && img.style == old(img.style) && img.attributes == old(img.attributes)
    requires forall l: Label :: old(allocated(l)) && l !in item.Footprint() ==> l.classes == old(l.classes)
    ensures forall c: Card :: old(allocated(c)) && old(c.IsStandardized()) ==> c.IsStandardized()
  {
    FootprintMembers(item);
    forall c: Card | old(allocated(c)) && old(c.IsStandardized())
      ensures c.IsStandardized()
    {
      PassKeepsCard((item, c));
    }
  }

  // ---------------------------------------------------------------------
  // The engine
  // ---------------------------------------------------------------------

  class CollectionGridStandardization {
    /** the cards whose standardization is under way */
    var processingQueue: set<Card>
    /** the throttle timer slot: the mutation list its flush captured, if
        one is armed */
    var pending: Option<seq<MutationRecord>>
    /** whether the mutation observer is connected */
    var observing: bool
    var initialized: bool
    /** the cards a standardization pass has run on, in order */
    ghost var standardized: seq<Card>

    /** Between calls no card is being processed. */
    predicate Valid()
      reads this
    {
      processingQueue == {}
    }

    function PendingFootprint(): set<object>
      reads this
    {
      match pending
      case None => {}
      case Some(mutations) => CardsFootprint(BatchItems(mutations))
    }

    /** init: standardize the grids already on the page, then connect the
        observer. */
    constructor (grids: seq<seq<Card>>)
      modifies GridsFootprint(grids)
      ensures Valid() && pending == None && observing && initialized
      ensures standardized == Flatten(grids)
      ensures forall j, k :: 0 <= j < |grids| && 0 <= k < |grids[j]| ==> grids[j][k].IsStandardized()
    {
      processingQueue := {};
      pending := None;
      observing := false;
      initialized := false;
      standardized := [];
      new;
      EngineOutsideGrids(this, grids);
      StandardizeExistingGrid(grids);
      observing := true;
      initialized := true;
    }

    /** standardizeExistingGrid: every item of every grid, grid by grid, in
        document order; each gets its own pass, and every card ends
        standardized, later passes on cards sharing its parts included. */
    method StandardizeExistingGrid(grids: seq<seq<Card>>)
      requires Valid()
      modifies this`processingQueue, this`standardized, GridsFootprint(grids)
      ensures Valid()
      ensures standardized == old(standardized) + Flatten(grids)
      ensures forall j, k :: 0 <= j < |grids| && 0 <= k < |grids[j]| ==> grids[j][k].IsStandardized()
      ensures forall c: Card :: old(allocated(c)) && old(c.IsStandardized()) ==> c.IsStandardized()
    {
      for i := 0 to |grids|
        invariant Valid()
        invariant standardized == old(standardized) + Flatten(grids[..i])
        invariant forall j, k :: 0 <= j < i && 0 <= k < |grids[j]| ==> grids[j][k].IsStandardized()
        invariant forall c: Card :: old(allocated(c)) && old(c.IsStandardized()) ==> c.IsStandardized()
      {
        var items := grids[i];
        GridFootprintWithin(grids, i);
        EngineOutside(this, items);
        StandardizeItems(items);
        FlattenStep(old(standardized), grids, i);
      }
      assert grids[..|grids|] == grids;
    }

    /** The forEach over a list of items that standardizeExistingGrid runs
        for each grid and the flush runs for the gathered cards: one pass
        per item, in order. */
    method StandardizeItems(items: seq<Card>)
      requires Valid()
      modifies this`processingQueue, this`standardized, ItemsFootprint(items)
      ensures Valid()
      ensures standardized == old(standardized) + items
      ensures forall k :: 0 <= k < |items| ==> items[k].IsStandardized()
      ensures forall c: Card :: old(allocated(c)) && old(c.IsStandardized()) ==> c.IsStandardized()
    {
      for i := 0 to |items|
        invariant Valid()
        invariant standardized == old(standardized) + items[..i]
        invariant forall c: Card :: old(allocated(c)) && (old(c.IsStandardized()) || c in items[..i]) ==> c.IsStandardized()
      {
        ItemFootprintWithin(items, i);
        StandardizeGridItem(items[i]);
        LogStep(old(standardized), items, i);
      }
      assert items[..|items|] == items;
    }

    /** standardizeGridItem: a card already being processed is left alone;
        otherwise it is marked, laid out if it is a list item, its wrapper,
        image, title and price are standardized and a missing image gets a
        placeholder; the processing set ends as it began. */
    method StandardizeGridItem(item: Card)
      modifies this`processingQueue, this`standardized, item.Footprint()
      ensures processingQueue == old(processingQueue)
      ensures item in old(processingQueue) ==> unchanged(item.Footprint()) && standardized == old(standardized)
      ensures item !in old(processingQueue) ==> standardized == old(standardized) + [item]
      ensures item !in old(processingQueue) ==> item.IsStandardized()
      ensures forall c: Card :: old(allocated(c)) && old(c.IsStandardized()) ==> c.IsStandardized()
    {
      if item in processingQueue {
        return;
      }
      ghost var queue := processingQueue;
      processingQueue := processingQueue + {item};
      assert processingQueue - {item} == queue;
      EngineOutside(this, [item]);
      StandardizeCard(item);
      StandardizedState(item);
      PassKeepsStandardized(item);
      EngineOutsideCards(this);
      processingQueue := processingQueue - {item};
      standardized := standardized + [item];
    }

    /** The body of standardizeGridItem between adding the card to the
        processing set and deleting it again. */
    method StandardizeCard(item: Card)
      modifies item.Footprint()
      ensures CardStandardized(item)
    {
      item.classes := item.classes + {ItemMarker};
      if item.tagName == "LI" {
        item.style := ListItemStyle(item.style);
      }
      var wrapper := item.wrapper;
      if wrapper != null {
        StandardizeImageWrapper(wrapper);
      }
      StandardizeProductInfo(item);
      HandleMissingImages(item);
    }

    method StandardizeImageWrapper(wrapper: ImageWrapper)
      modifies wrapper, wrapper.image
      ensures WrapperStandardized(wrapper)
      ensures wrapper.placeholders == old(wrapper.placeholders)
    {
      wrapper.classes := wrapper.classes + {WrapperMarker};
      wrapper.style := wrapper.style["aspectRatio" := AspectRatio];
      var img := wrapper.image;
      if img != null {
        StandardizeImage(img);
      }
    }

    method StandardizeImage(img: Image)
      modifies img
      ensures ImageStandardized(img)
    {
      img.classes := img.classes + {ImageMarker};
      img.style := img.style["objectFit" := "cover"];
      img.style := img.style["objectPosition" := "center"];
      if "loading" !in img.attributes {
        img.attributes := img.attributes["loading" := "lazy"];
      }
      img.errorListeners := img.errorListeners + 1;
    }

    /** standardizeProductInfo: the title and the price, when found, get
        their markers. */
    method StandardizeProductInfo(item: Card)
      modifies item.title, item.price
      ensures item.title != null ==> item.title.classes == old(item.title.classes) + item.LabelMarkers(item.title)
      ensures item.price != null ==> item.price.classes == old(item.price.classes) + item.LabelMarkers(item.price)
    {
      var title, price := item.title, item.price;
      if title != null {
        title.classes := title.classes + {TitleMarker};
      }
      if price != null {
        price.classes := price.classes + {PriceMarker};
      }
    }

    /** handleMissingImages: a placeholder is requested exactly when the
        card has a wrapper that needs one. */
    method HandleMissingImages(item: Card)
      modifies item.wrapper
      ensures item.wrapper != null ==>
        && item.wrapper.classes == old(item.wrapper.classes)
        && item.wrapper.style == old(item.wrapper.style)
        && item.wrapper.placeholders ==
             if NeedsPlaceholder(item.wrapper) then PlaceholdersAfterAdd(old(item.wrapper.placeholders))
             else old(item.wrapper.placeholders)
    {
      var wrapper := item.wrapper;
      if wrapper != null && NeedsPlaceholder(wrapper) {
        AddImagePlaceholder(wrapper);
      }
    }

    /** addImagePlaceholder: nothing when a placeholder is already there,
        otherwise exactly one is appended. */
    method AddImagePlaceholder(wrapper: ImageWrapper)
      modifies wrapper`placeholders
      ensures wrapper.placeholders == PlaceholdersAfterAdd(old(wrapper.placeholders))
    {
      if wrapper.placeholders > 0 {
        return;
      }
      wrapper.placeholders := wrapper.placeholders + 1;
    }

    /** handleImageError, given the image's closest wrapper: that wrapper
        gets a placeholder by the same rule and the image is hidden; an
        image outside any wrapper is left alone. */
    method HandleImageError(img: Image, closest: ImageWrapper?)
      modifies img`style, closest
      ensures closest == null ==> img.style == old(img.style)
      ensures closest != null ==>
        && img.style == old(img.style)["display" := "none"]
        && closest.placeholders == PlaceholdersAfterAdd(old(closest.placeholders))
        && closest.classes == old(closest.classes) && closest.style == old(closest.style)
    {
      if closest != null {
        AddImagePlaceholder(closest);
        img.style := img.style["display" := "none"];
      }
    }

    /** The observer's callback: records are delivered only while the
        observer is connected. */
    method Deliver(mutations: seq<MutationRecord>)
      modifies this`pending
      ensures pending == if observing then Some(mutations) else old(pending)
    {
      if observing {
        HandleMutations(mutations);
      }
    }

    /** handleMutations: cancel the armed flush and arm a new one that will
        process this list only; earlier lists are dropped with their timer. */
    method HandleMutations(mutations: seq<MutationRecord>)
      modifies this`pending
      ensures pending == Some(mutations)
    {
      pending := Some(mutations);
    }

    /** The throttle timer fires: the slot is emptied and the flush it held
        runs on the list it captured. */
    method Flush() returns (itemCount: Option<nat>, ghost processed: seq<Card>)
      requires Valid()
      modifies this`pending, this`processingQueue, this`standardized, PendingFootprint()
      ensures Valid() && pending == None
      ensures standardized == old(standardized) + processed && Distinct(processed)
      ensures old(pending).None? ==> itemCount.None? && processed == []
      ensures old(pending).Some? ==>
        var items := BatchItems(old(pending).value);
        && Elems(processed) == items
        && (forall c :: c in items ==> c.IsStandardized())
        && itemCount == if items == {} then None else Some(|items|)
      ensures forall c: Card :: old(allocated(c)) && old(c.IsStandardized()) ==> c.IsStandardized()
    {
      if pending.None? {
        return None, [];
      }
      var mutations := pending.value;
      EngineOutsideCards(this);
      assert this !in CardsFootprint(BatchItems(mutations));
      pending := None;
      assert forall c: Card :: old(allocated(c)) && old(c.IsStandardized()) ==> c.IsStandardized();
      itemCount, processed := FlushBatch(mutations);
    }

    /** The flush's closure: the cards of the captured list are gathered
        without duplicates, each gets exactly one standardization pass and
        ends standardized, and their number is announced when there is at
        least one. */
    method FlushBatch(mutations: seq<MutationRecord>) returns (itemCount: Option<nat>, ghost processed: seq<Card>)
      requires Valid()
      modifies this`processingQueue, this`standardized, CardsFootprint(BatchItems(mutations))
      ensures Valid()
      ensures standardized == old(standardized) + processed && Distinct(processed)
      ensures Elems(processed) == BatchItems(mutations)
      ensures forall c :: c in BatchItems(mutations) ==> c.IsStandardized()
      ensures itemCount == if BatchItems(mutations) == {} then None else Some(|BatchItems(mutations)|)
      ensures forall c: Card :: old(allocated(c)) && old(c.IsStandardized()) ==> c.IsStandardized()
    {
      var items := CollectAddedItems(mutations);
      FootprintsWithin(items, BatchItems(mutations));
      EngineOutside(this, items);
      StandardizeItems(items);
      DistinctCardinality(items);
      itemCount := if |items| > 0 then Some(|items|) else None;
      processed := items;
    }

    /** handleResize: the aspect ratio is written again on every wrapper;
        nothing else is touched. */
    method HandleResize(wrappers: seq<ImageWrapper>)
      modifies set w | w in wrappers
      ensures forall w :: w in wrappers ==>
        && w.style == old(w.style)["aspectRatio" := AspectRatio]
        && w.classes == old(w.classes) && w.placeholders == old(w.placeholders)
    {
      for i := 0 to |wrappers|
        invariant forall w :: w in wrappers[..i] ==>
          && w.style == old(w.style)["aspectRatio" := AspectRatio]
          && w.classes == old(w.classes) && w.placeholders == old(w.placeholders)
        invariant forall w :: w in wrappers && w !in wrappers[..i] ==> unchanged(w)
      {
        var w := wrappers[i];
        w.style := w.style["aspectRatio" := AspectRatio];
        assert wrappers[..i + 1] == wrappers[..i] + [w];
      }
      assert wrappers[..|wrappers|] == wrappers;
    }

    /** destroy: disconnect the observer, cancel the armed flush, empty the
        processing set. */
    method Destroy()
      modifies this
      ensures Valid() && !observing && pending == None && !initialized
    {
      observing := false;
      pending := None;
      processingQueue := {};
      initialized := false;
    }
  }

  lemma {:induction false} DistinctCardinality(s: seq<Card>)
    requires Distinct(s)
    ensures |Elems(s)| == |s|
  {
    if s != [] {
      var t := s[..|s| - 1];
      assert s == t + [s[|s| - 1]];
      DistinctCardinality(t);
      ElemsAppend(t, s[|s| - 1]);
    }
  }
}
