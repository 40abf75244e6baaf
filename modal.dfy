/** The product modal of js/modal.js as a state machine over
    `window.currentModalData`: opening on a product group narrowed by the
    catalog filters, switching variation, stepping through images, choosing
    a size and putting the variation in the cart. */
module ProductModal {
  import opened ProductData
  import opened Text
  import opened Seqs
  import opened CatalogFilters
  import Cart

  // ---------------------------------------------------------------------
  // The variation filter of openProductModal

  /** The callback openProductModal passes to `variations.filter`, test by
      test: price range, gender, category, subcategory, brand, colour, then
      the four flags. Sizes are not tested. */
  predicate VariationCallback(f: Filters, v: Product) {
    if v.price < f.priceMin || v.price > f.priceMax then false
    else if |f.gender| > 0 && v.gender !in f.gender then false
    else if |f.category| > 0 && v.category !in f.category then false
    else if |f.subcategory| > 0 && v.subcategory !in f.subcategory then false
    else if |f.brands| > 0 && v.brand !in f.brands then false
    else if |f.colors| > 0 && v.color !in f.colors then false
    else if f.isNew && !v.isNew then false
    else if f.isFeatured && !v.isFeatured then false
    else if f.isBestSeller && !v.isBestSeller then false
    else if f.hasDiscount && v.discount <= 0 then false
    else true
  }

  /** `variations.filter(...)` with that callback. */
  function VariationFilter(variations: seq<Product>, f: Filters): (r: seq<Product>)
    ensures |r| <= |variations|
  {
    if variations == [] then []
    else
      var init, last := variations[..|variations| - 1], variations[|variations| - 1];
      VariationFilter(init, f) + (if VariationCallback(f, last) then [last] else [])
  }

  /** The modal's callback accepts exactly what the catalog's filters accept
      once the size filter is emptied. */
  lemma VariationCallbackIsCatalogWithoutSizes(f: Filters, v: Product)
    ensures VariationCallback(f, v) <==> SatisfiesFilters(f.(sizes := []), v)
  {
  }

  /** The size filter has no effect on the modal's variations. */
  lemma {:induction false} VariationFilterIgnoresSizes(variations: seq<Product>, f: Filters, sizes: seq<string>)
    ensures VariationFilter(variations, f.(sizes := sizes)) == VariationFilter(variations, f)
  {
    if variations != [] {
      VariationFilterIgnoresSizes(variations[..|variations| - 1], f, sizes);
    }
  }

  /** The modal keeps exactly the variations the callback accepts, in their
      order: the filter of a longer list extends the filter of its prefix. */
  lemma {:induction false} VariationFilterMembers(variations: seq<Product>, f: Filters)
    ensures forall v :: v in VariationFilter(variations, f) <==> v in variations && VariationCallback(f, v)
  {
    if variations != [] {
      var init, last := variations[..|variations| - 1], variations[|variations| - 1];
      VariationFilterMembers(init, f);
      assert variations == init + [last];
    }
  }

  /** Unlike applyFilters, the modal offers a variation none of whose sizes
      is selected. */
  lemma VariationFilterSizeGap()
    ensures var v := Product("v1", "p1", "Runner", "", "Shoes", "", "Men", 100, 0, "Red", ["42"], "",
                             NoImages, false, false, false, 0);
      var f := DefaultFilters.(sizes := ["44"]);
      VariationCallback(f, v) && !SatisfiesFilters(f, v)
  {
    var v := Product("v1", "p1", "Runner", "", "Shoes", "", "Men", 100, 0, "Red", ["42"], "",
                     NoImages, false, false, false, 0);
    var f := DefaultFilters.(sizes := ["44"]);
    assert !SharesSize(v, f.sizes) by {
      assert forall i :: 0 <= i < |v.sizes| ==> v.sizes[i] == "42";
      assert "42" != "44";
    }
  }

  // ---------------------------------------------------------------------
  // Image lists

  /** `map(img => img.trim())`. */
  function TrimAll(pieces: seq<string>): (r: seq<string>)
    ensures |r| == |pieces|
    ensures forall i :: 0 <= i < |r| ==> r[i] == Trim(pieces[i])
  {
    if pieces == [] then [] else [Trim(pieces[0])] + TrimAll(pieces[1..])
  }

  /** The image list openProductModal builds: a string is split on ',',
      trimmed and cleared of empty pieces, an array is taken as it is, and
      an empty list falls back to the main image. */
  function OpenImages(p: Product): seq<string> {
    var related := match p.images
      case NoImages => []
      case ImageText(t) => if t == "" then [] else Keep(TrimAll(Split(t, ',')), NonEmpty)
      case ImageArray(urls) => urls;
    if related == [] then [p.image] else related
  }

  /** The image list changeModalVariation builds: an array is taken as it
      is, even when empty, a string is split and trimmed but its empty pieces
      are kept, and an absent value gives the main image. */
  function ChangeImages(p: Product): seq<string> {
    match p.images
    case NoImages => [p.image]
    case ImageText(t) => if t == "" then [p.image] else TrimAll(Split(t, ','))
    case ImageArray(urls) => urls
  }

  predicate NonEmpty(img: string) {
    img != ""
  }

  /** A trimmed piece of a split contains no separator, and when non-empty
      neither starts nor ends with whitespace. */
  lemma TrimmedPiece(piece: string)
    requires ',' !in piece
    ensures ',' !in Trim(piece)
    ensures Trim(piece) != "" ==> !IsSpace(Trim(piece)[0]) && !IsSpace(Trim(piece)[|Trim(piece)| - 1])
  {
    TrimChars(piece);
  }

  lemma TrimmedPieces(t: string)
    ensures forall e :: e in TrimAll(Split(t, ',')) ==>
      ',' !in e && (e != "" ==> !IsSpace(e[0]) && !IsSpace(e[|e| - 1]))
  {
    SplitPiecesHaveNoSeparator(t, ',');
    var pieces := Split(t, ',');
    var r := TrimAll(pieces);
    forall i | 0 <= i < |r|
      ensures ',' !in r[i] && (r[i] != "" ==> !IsSpace(r[i][0]) && !IsSpace(r[i][|r[i]| - 1]))
    {
      assert pieces[i] in pieces;
      TrimmedPiece(pieces[i]);
    }
  }

  /** openProductModal always has an image to show. Entries taken from a
      string are non-empty, free of commas and of surrounding whitespace; an
      array is used as it is when non-empty; and a record without images
      shows its main image. */
  lemma OpenImagesShape(p: Product)
    ensures OpenImages(p) != []
    ensures p.images.ImageArray? && p.images.urls != [] ==> OpenImages(p) == p.images.urls
    ensures p.images.ImageText? && OpenImages(p) != [p.image] ==>
      forall e :: e in OpenImages(p) ==>
        e != "" && ',' !in e && !IsSpace(e[0]) && !IsSpace(e[|e| - 1])
    ensures p.images.NoImages? ==> OpenImages(p) == [p.image]
  {
    if p.images.ImageText? && p.images.text != "" {
      KeptPieces(p.images.text);
    }
  }

  lemma KeptPieces(t: string)
    ensures forall e :: e in Keep(TrimAll(Split(t, ',')), NonEmpty) ==>
      e != "" && ',' !in e && !IsSpace(e[0]) && !IsSpace(e[|e| - 1])
  {
    var pieces := TrimAll(Split(t, ','));
    TrimmedPieces(t);
    KeepMembers(pieces, NonEmpty);
  }

  /** changeModalVariation keeps one entry per comma-separated piece, empty
      ones included. */
  lemma ChangeImagesCount(p: Product)
    requires p.images.ImageText? && p.images.text != ""
    ensures |ChangeImages(p)| == CountChar(p.images.text, ',') + 1
  {
    SplitCount(p.images.text, ',');
  }

  /** The two image parsers disagree: for "a,,b" openProductModal shows two
      images and changeModalVariation three, one of them empty; for an empty
      array the first falls back to the main image and the second shows
      none. */
  lemma ImageParsersDisagree(p: Product)
    ensures p.images == ImageText("a,,b") ==>
      OpenImages(p) == ["a", "b"] && ChangeImages(p) == ["a", "", "b"]
    ensures p.images == ImageArray([]) ==> OpenImages(p) == [p.image] && ChangeImages(p) == []
  {
    if p.images == ImageText("a,,b") {
      TextImagesDisagree(p);
    }
  }

  /** The text case of ImageParsersDisagree. */
  lemma TextImagesDisagree(p: Product)
    requires p.images == ImageText("a,,b")
    ensures OpenImages(p) == ["a", "b"] && ChangeImages(p) == ["a", "", "b"]
  {
    SplitTrimExample();
    KeepExample();
  }

  lemma SplitTrimExample()
    ensures TrimAll(Split("a,,b", ',')) == ["a", "", "b"]
  {
    SplitExample();
    TrimAllExample();
  }

  lemma SplitExample()
    ensures Split("a,,b", ',') == ["a", "", "b"]
  {
    var t := "a,,b";
    assert IndexOfChar(t, ',') == 1 && t[..1] == "a" && t[2..] == ",b";
    assert IndexOfChar(",b", ',') == 0 && ",b"[..0] == "" && ",b"[1..] == "b";
    assert IndexOfChar("b", ',') == 1;
    assert Split("b", ',') == ["b"];
    assert Split(",b", ',') == [""] + ["b"];
  }

  /** Pieces that trimming leaves alone are left alone by the whole map. */
  lemma {:induction false} TrimAllUnchanged(pieces: seq<string>)
    requires forall i :: 0 <= i < |pieces| ==> Trim(pieces[i]) == pieces[i]
    ensures TrimAll(pieces) == pieces
  {
    if pieces != [] {
      TrimAllUnchanged(pieces[1..]);
      assert TrimAll(pieces) == [pieces[0]] + pieces[1..];
    }
  }

  lemma TrimAllExample()
    ensures TrimAll(["a", "", "b"]) == ["a", "", "b"]
  {
    var pieces: seq<string> := ["a", "", "b"];
    forall i | 0 <= i < |pieces|
      ensures Trim(pieces[i]) == pieces[i]
    {
      if pieces[i] != [] {
        assert !IsSpace(pieces[i][0]) && !IsSpace(pieces[i][|pieces[i]| - 1]);
      }
    }
    TrimAllUnchanged(pieces);
  }

  lemma KeepExample()
    ensures Keep(["a", "", "b"], NonEmpty) == ["a", "b"]
  {
    var pieces := ["a", "", "b"];
    assert pieces[..2] == ["a", ""] && pieces[..2][..1] == ["a"] && pieces[..2][..1][..0] == [];
  }

  // ---------------------------------------------------------------------
  // Wrap-around image index

  /** navigateRelatedImage / navigateModalImage: step by `direction`; below 0
      go to the last index, at or past the end go to 0. */
  function Wrap(current: int, direction: int, len: int): (r: int)
    ensures len > 0 ==> 0 <= r < len
    ensures len == 0 ==> r == -1 || r == 0
  {
    var n := current + direction;
    var n' := if n < 0 then len - 1 else n;
    if n' >= len then 0 else n'
  }

  /** From a valid index, one step forward is (i + 1) mod n and one step back
      is (i - 1 + n) mod n, so a step forward then back returns. */
  lemma WrapSteps(i: int, len: int)
    requires 0 <= i < len
    ensures Wrap(i, 1, len) == (i + 1) % len
    ensures Wrap(i, -1, len) == (i - 1 + len) % len
    ensures Wrap(Wrap(i, 1, len), -1, len) == i
    ensures Wrap(Wrap(i, -1, len), 1, len) == i
  {
    if i + 1 == len {
      ModBelowTwice(len, len);
    } else {
      ModBelow(i + 1, len);
    }
    if i == 0 {
      ModBelow(len - 1, len);
    } else {
      ModBelowTwice(i - 1 + len, len);
    }
  }

  /** A number in [0, n) is its own remainder. */
  lemma ModBelow(x: int, n: int)
    requires 0 <= x < n
    ensures x % n == x
  {
  }

  /** A number in [n, 2n) has remainder x - n. */
  lemma ModBelowTwice(x: int, n: int)
    requires 0 < n <= x < 2 * n
    ensures x % n == x - n
  {
  }

  // ---------------------------------------------------------------------
  // The modal state

  /** `window.currentModalData`; a selected size of "" stands for null. */
  datatype ModalData = ModalData(
    productId: string,
    variations: seq<Product>,
    currentVariation: Product,
    currentRelatedImages: seq<string>,
    currentImageIndex: int,
    selectedSize: string)

  /** A click: the element clicked and the element whose handler runs, as
      node identities. */
  datatype ClickEvent = ClickEvent(target: int, currentTarget: int)

  /** The index of the first variation with this id, or |variations|. */
  function FindVariation(variations: seq<Product>, id: string): (k: nat)
    ensures k <= |variations|
    ensures k < |variations| ==> variations[k].id == id
    ensures forall j :: 0 <= j < k ==> variations[j].id != id
  {
    var ids := seq(|variations|, i requires 0 <= i < |variations| => variations[i].id);
    assert forall j :: 0 <= j < |ids| ==> ids[j] == variations[j].id;
    IndexOf(ids, id)
  }

  /** The record openProductModal installs, if it installs one. */
  function Opened(groups: map<string, seq<Product>>, f: Filters, key: string): Option<ModalData> {
    var all := if key in groups then groups[key] else [];
    var shown := VariationFilter(all, f);
    if all == [] || shown == [] then None
    else Some(ModalData(key, shown, shown[0], OpenImages(shown[0]), 0, ""))
  }

  /** The opened modal shows a variation of the requested group that passes
      the filters, with a non-empty image list and index 0 inside it. */
  lemma OpenedShowsFilteredVariation(groups: map<string, seq<Product>>, f: Filters, key: string)
    ensures Opened(groups, f, key).Some? <==> key in groups && VariationFilter(groups[key], f) != []
    ensures Opened(groups, f, key).Some? ==>
      var d := Opened(groups, f, key).value;
      d.currentVariation in groups[key] && VariationCallback(f, d.currentVariation)
      && 0 <= d.currentImageIndex < |d.currentRelatedImages| && d.selectedSize == ""
  {
    if key in groups && VariationFilter(groups[key], f) != [] {
      VariationFilterMembers(groups[key], f);
      OpenImagesShape(VariationFilter(groups[key], f)[0]);
    }
  }

  /** The global modal record and the handlers that change it. */
  class ModalWindow {
    var currentModalData: Option<ModalData>

    constructor()
      ensures currentModalData == None
    {
      currentModalData := None;
    }

    /** openProductModal(key), with the catalog's groups and filters. An
        unknown group, or one the filters empty, leaves the state alone. */
    method OpenProductModal(groups: map<string, seq<Product>>, f: Filters, key: string)
      modifies this
      ensures Opened(groups, f, key).None? ==> currentModalData == old(currentModalData)
      ensures Opened(groups, f, key).Some? ==> currentModalData == Opened(groups, f, key)
    {
      var variations := if key in groups then groups[key] else [];
      if variations == [] {
        return;
      }
      variations := VariationFilter(variations, f);
      if variations == [] {
        return;
      }
      var product := variations[0];
      currentModalData := Some(ModalData(key, variations, product, OpenImages(product), 0, ""));
    }

    /** changeModalVariation(id): an unknown id changes nothing; otherwise
        the variation, its images, index 0 and no size. */
    method ChangeModalVariation(id: string)
      modifies this
      ensures old(currentModalData).None? ==> currentModalData == old(currentModalData)
      ensures old(currentModalData).Some? ==>
        var d := old(currentModalData).value;
        var k := FindVariation(d.variations, id);
        if k == |d.variations| then currentModalData == old(currentModalData)
        else currentModalData == Some(ModalData(d.productId, d.variations, d.variations[k],
                                                ChangeImages(d.variations[k]), 0, ""))
    {
      if currentModalData.None? {
        return;
      }
      var d := currentModalData.value;
      var k := FindVariation(d.variations, id);
      if k == |d.variations| {
        return;
      }
      var variation := d.variations[k];
      currentModalData := Some(ModalData(d.productId, d.variations, variation, ChangeImages(variation), 0, ""));
    }

    /** navigateRelatedImage(direction): wrap over the image list. */
    method NavigateRelatedImage(direction: int)
      modifies this
      ensures old(currentModalData).None? ==> currentModalData == old(currentModalData)
      ensures old(currentModalData).Some? ==>
        var d := old(currentModalData).value;
        currentModalData.Some? && currentModalData.value.currentImageIndex
          == Wrap(d.currentImageIndex, direction, |d.currentRelatedImages|)
        && currentModalData.value == d.(currentImageIndex := currentModalData.value.currentImageIndex)
      ensures old(currentModalData).Some? && old(currentModalData).value.currentRelatedImages != [] ==>
        0 <= currentModalData.value.currentImageIndex < |currentModalData.value.currentRelatedImages|
    {
      if currentModalData.None? {
        return;
      }
      var d := currentModalData.value;
      var newIndex := d.currentImageIndex + direction;
      if newIndex < 0 {
        newIndex := |d.currentRelatedImages| - 1;
      }
      if newIndex >= |d.currentRelatedImages| {
        newIndex := 0;
      }
      currentModalData := Some(d.(currentImageIndex := newIndex));
    }

    /** navigateModalImage(direction): the same wrap, but over the number of
        variations. */
    method NavigateModalImage(direction: int)
      modifies this
      ensures old(currentModalData).None? ==> currentModalData == old(currentModalData)
      ensures old(currentModalData).Some? ==>
        var d := old(currentModalData).value;
        currentModalData.Some? && currentModalData.value.currentImageIndex
          == Wrap(d.currentImageIndex, direction, |d.variations|)
        && currentModalData.value == d.(currentImageIndex := currentModalData.value.currentImageIndex)
    {
      if currentModalData.None? {
        return;
      }
      var d := currentModalData.value;
      var newIndex := d.currentImageIndex + direction;
      if newIndex < 0 {
        newIndex := |d.variations| - 1;
      }
      if newIndex >= |d.variations| {
        newIndex := 0;
      }
      currentModalData := Some(d.(currentImageIndex := newIndex));
    }

    /** selectModalSize(size). */
    method SelectModalSize(size: string)
      modifies this
      ensures old(currentModalData).None? ==> currentModalData == old(currentModalData)
      ensures old(currentModalData).Some? ==>
        currentModalData == Some(old(currentModalData).value.(selectedSize := size))
    {
      if currentModalData.Some? {
        currentModalData := Some(currentModalData.value.(selectedSize := size));
      }
    }

    /** closeProductModal(event): a click that bubbled up from inside the
        dialog is ignored; otherwise the record is cleared. */
    method CloseProductModal(event: Option<ClickEvent>)
      modifies this
      ensures event.Some? && event.value.target != event.value.currentTarget ==>
        currentModalData == old(currentModalData)
      ensures !(event.Some? && event.value.target != event.value.currentTarget) ==> currentModalData == None
    {
      if event.Some? && event.value.target != event.value.currentTarget {
        return;
      }
      currentModalData := None;
    }

    /** addModalProductToBag: without a record or a size nothing changes;
        otherwise the current variation goes into the cart in that size and
        the modal closes. */
    method AddModalProductToBag(cart: Cart.ShoppingCart)
      modifies this, cart
      ensures (old(currentModalData).None? || old(currentModalData).value.selectedSize == "") ==>
        currentModalData == old(currentModalData) && cart.items == old(cart.items)
        && cart.persisted == old(cart.persisted)
      ensures (old(currentModalData).Some? && old(currentModalData).value.selectedSize != "") ==>
        var d := old(currentModalData).value;
        cart.items == Cart.Added(old(cart.items), d.currentVariation, d.selectedSize)
        && cart.persisted == Some(cart.items) && currentModalData == None
    {
      if currentModalData.None? || currentModalData.value.selectedSize == "" {
        return;
      }
      var d := currentModalData.value;
      cart.AddItem(d.currentVariation, d.selectedSize);
      CloseProductModal(None);
    }
  }
}
