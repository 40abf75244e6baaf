/** ProductCatalog (js/products.js): the catalog object that holds every
    record, the filter state, the filtered list, the current page and the
    selection, and recomputes the filtered list on every filter change. */
module Catalog {
  import opened ProductData
  import opened Seqs
  import opened CatalogFilters
  import opened CatalogDedup
  import opened CatalogQuery
  import opened CatalogPages

  /** A key no record carries has an empty group. */
  lemma {:induction false} GroupOfMissing(s: seq<Product>, k: string)
    requires k !in KeysOf(s, GroupKey)
    ensures GroupOf(s, k) == []
  {
    if s != [] {
      var init := s[..|s| - 1];
      assert s == init + [s[|s| - 1]];
      KeysOfAppend(init, s[|s| - 1], GroupKey);
      GroupOfAppend(init, s[|s| - 1], k);
      GroupOfMissing(init, k);
    }
  }

  /** `groups` holds, for every key of `s`, the records of `s` with that
      key in order, and nothing else. */
  ghost predicate GroupsOf(groups: map<string, seq<Product>>, s: seq<Product>) {
    groups.Keys == KeysOf(s, GroupKey) && forall k :: k in groups ==> groups[k] == GroupOf(s, k)
  }

  /** Pushing a record onto its group's array (creating it when missing). */
  function AddToGroup(groups: map<string, seq<Product>>, x: Product): map<string, seq<Product>> {
    groups[GroupKey(x) := (if GroupKey(x) in groups then groups[GroupKey(x)] else []) + [x]]
  }

  lemma AddToGroupStep(groups: map<string, seq<Product>>, s: seq<Product>, x: Product)
    requires GroupsOf(groups, s)
    ensures GroupsOf(AddToGroup(groups, x), s + [x])
  {
    KeysOfAppend(s, x, GroupKey);
    if GroupKey(x) !in groups {
      GroupOfMissing(s, GroupKey(x));
    }
    forall k | k in AddToGroup(groups, x)
      ensures AddToGroup(groups, x)[k] == GroupOf(s + [x], k)
    {
      GroupOfAppend(s, x, k);
    }
  }

  /** The body of the forEach in groupProductsByID: create the group's
      array when missing, then push the record. */
  method PushToGroup(groups: map<string, seq<Product>>, product: Product) returns (r: map<string, seq<Product>>)
    ensures r == AddToGroup(groups, product)
  {
    var groupId := GroupKey(product);
    r := groups;
    if groupId !in r {
      r := r[groupId := []];
    }
    r := r[groupId := r[groupId] + [product]];
  }

  /** groupProductsByID: one array per group key, filled in input order.
      Every record lands in the group of its own key and in no other. */
  method GroupProductsByID(products: seq<Product>) returns (groups: map<string, seq<Product>>)
    ensures groups.Keys == KeysOf(products, GroupKey)
    ensures forall k :: k in groups ==> groups[k] == GroupOf(products, k)
    ensures forall x :: x in products ==> GroupKey(x) in groups && x in groups[GroupKey(x)]
    ensures forall k, x :: k in groups && x in groups[k] ==> GroupKey(x) == k
  {
    groups := map[];
    var i := 0;
    while i < |products|
      invariant 0 <= i <= |products|
      invariant GroupsOf(groups, products[..i])
    {
      assert products[..i + 1] == products[..i] + [products[i]];
      AddToGroupStep(groups, products[..i], products[i]);
      groups := PushToGroup(groups, products[i]);
      i := i + 1;
    }
    assert products[..|products|] == products;
    forall k | k in groups
      ensures forall x :: x in groups[k] ==> GroupKey(x) == k
    {
      GroupOfMembers(products, k);
    }
    forall x | x in products
      ensures GroupKey(x) in groups && x in groups[GroupKey(x)]
    {
      var n :| 0 <= n < |products| && products[n] == x;
      GroupOfMembers(products, GroupKey(x));
    }
  }

  /** getUniqueProductsFromArray: a Map from group key to the first record
      seen with it, read back in insertion order. */
  method GetUniqueProductsFromArray(products: seq<Product>) returns (unique: seq<Product>)
    ensures unique == UniqueByGroup(products)
  {
    unique := [];
    var seen: set<string> := {};
    var i := 0;
    while i < |products|
      invariant 0 <= i <= |products|
      invariant unique == FirstPerKey(products[..i], GroupKey)
      invariant seen == KeysOf(unique, GroupKey)
    {
      var product := products[i];
      assert products[..i + 1][..i] == products[..i];
      if GroupKey(product) !in seen {
        KeysOfAppend(unique, product, GroupKey);
        unique := unique + [product];
        seen := seen + {GroupKey(product)};
      }
      i := i + 1;
    }
    assert products[..|products|] == products;
  }

  /** The colour Map inside smartDeduplicateVariations: the first record of
      each colour, in order of first appearance. */
  method DedupByColor(variations: seq<Product>) returns (cards: seq<Product>)
    ensures cards == FirstPerKey(variations, ColorOf)
  {
    cards := [];
    var colors: set<string> := {};
    var i := 0;
    while i < |variations|
      invariant 0 <= i <= |variations|
      invariant cards == FirstPerKey(variations[..i], ColorOf)
      invariant colors == KeysOf(cards, ColorOf)
    {
      var v := variations[i];
      assert variations[..i + 1][..i] == variations[..i];
      if v.color !in colors {
        KeysOfAppend(cards, v, ColorOf);
        cards := cards + [v];
        colors := colors + {v.color};
      }
      i := i + 1;
    }
    assert variations[..|variations|] == variations;
  }

  /** The state of the grouping loop after the records `s`: the key order
      of the Map and its contents. */
  ghost predicate OrderedGroups(order: seq<string>, groups: map<string, seq<Product>>, s: seq<Product>) {
    order == GroupOrder(s) && GroupsOf(groups, s)
  }

  /** One iteration of the grouping loop keeps the key order and the groups. */
  lemma GroupStep(order: seq<string>, groups: map<string, seq<Product>>, s: seq<Product>, x: Product)
    requires OrderedGroups(order, groups, s)
    ensures OrderedGroups(if GroupKey(x) in groups then order else order + [GroupKey(x)],
      AddToGroup(groups, x), s + [x])
  {
    GroupOrderAppend(s, x);
    AddToGroupStep(groups, s, x);
  }

  /** The first half of smartDeduplicateVariations: a Map from group key
      to the group's records, whose keys iterate in order of first
      appearance. The Map is modelled by its key order and its contents. */
  method GroupInOrder(products: seq<Product>) returns (order: seq<string>, groups: map<string, seq<Product>>)
    ensures order == GroupOrder(products)
    ensures GroupsOf(groups, products)
  {
    order := [];
    groups := map[];
    var i := 0;
    while i < |products|
      invariant 0 <= i <= |products|
      invariant OrderedGroups(order, groups, products[..i])
    {
      assert products[..i + 1] == products[..i] + [products[i]];
      GroupStep(order, groups, products[..i], products[i]);
      order, groups := AddRecord(order, groups, products[i]);
      i := i + 1;
    }
    assert products[..|products|] == products;
  }

  /** The body of the grouping loop: a new key is appended to the Map's key
      order, and the record is pushed onto its group's array. */
  method AddRecord(order: seq<string>, groups: map<string, seq<Product>>, product: Product)
    returns (order': seq<string>, groups': map<string, seq<Product>>)
    ensures order' == if GroupKey(product) in groups then order else order + [GroupKey(product)]
    ensures groups' == AddToGroup(groups, product)
  {
    var groupId := GroupKey(product);
    order' := order;
    if groupId !in groups {
      order' := order' + [groupId];
    }
    groups' := PushToGroup(groups, product);
  }

  /** A record whose key is new extends the key order; any other leaves it. */
  lemma GroupOrderAppend(s: seq<Product>, x: Product)
    ensures GroupOrder(s + [x]) ==
      if GroupKey(x) in KeysOf(s, GroupKey) then GroupOrder(s) else GroupOrder(s) + [GroupKey(x)]
  {
    assert (s + [x])[..|s|] == s;
    FirstPerKeyKeys(s, GroupKey);
    var u := FirstPerKey(s, GroupKey);
    assert (u + [x])[..|u|] == u;
  }

  /** smartDeduplicateVariations: group the records by key in order of first
      appearance, then emit each group's only record or its first record of
      each colour. */
  method SmartDeduplicateVariations(products: seq<Product>) returns (result: seq<Product>)
    ensures result == SmartDedup(products)
  {
    var order, groups := GroupInOrder(products);
    GroupOrderFacts(products);
    result := [];
    var j := 0;
    while j < |order|
      invariant 0 <= j <= |order|
      invariant result == ConcatGroups(products, order[..j])
    {
      assert order[j] in order;
      var variations := groups[order[j]];
      assert order[..j + 1][..j] == order[..j];
      if |variations| == 1 {
        result := result + [variations[0]];
      } else {
        var cards := DedupByColor(variations);
        result := result + cards;
      }
      j := j + 1;
    }
    assert order[..|order|] == order;
  }

  /** The guarded `filter` calls at the start of applyFilters. */
  method FilterChain(all: seq<Product>, f: Filters) returns (filtered: seq<Product>)
    ensures filtered == Filtered(all, f)
  {
    filtered := all;
    filtered := GuardedFilter(filtered, f, CategoryStep);
    ghost var s1 := filtered;
    filtered := GuardedFilter(filtered, f, SubcategoryStep);
    ghost var s2 := filtered;
    filtered := GuardedFilter(filtered, f, GenderStep);
    ghost var s3 := filtered;
    filtered := GuardedFilter(filtered, f, NewStep);
    ghost var s4 := filtered;
    filtered := GuardedFilter(filtered, f, FeaturedStep);
    ghost var s5 := filtered;
    filtered := GuardedFilter(filtered, f, BestSellerStep);
    ghost var s6 := filtered;
    filtered := GuardedFilter(filtered, f, DiscountStep);
    ghost var s7 := filtered;
    filtered := GuardedFilter(filtered, f, PriceStep);
    ghost var s8 := filtered;
    filtered := GuardedFilter(filtered, f, SizeStep);
    ghost var s9 := filtered;
    filtered := GuardedFilter(filtered, f, ColorStep);
    ghost var s10 := filtered;
    filtered := GuardedFilter(filtered, f, BrandStep);
    FilteredSteps(all, f, s1, s2, s3, s4, s5, s6, s7, s8, s9, s10, filtered);
  }

  /** One `if (guard) filtered = filtered.filter(callback)` of applyFilters;
      the price step has no guard. */
  method GuardedFilter(s: seq<Product>, f: Filters, st: Step) returns (r: seq<Product>)
    ensures r == ApplyStep(s, f, st)
    ensures forall x :: x in r <==> x in s && Passes(f, st, x)
  {
    StepMembersAll(s, f, st);
    r := s;
    if StepActive(f, st) {
      r := StepFilter(s, f, st);
    }
  }

  /** The deduplication policy of applyFilters: one card per group unless
      a size or colour is chosen, then one card per colour of each group. */
  method DeduplicateFiltered(filtered: seq<Product>, f: Filters) returns (r: seq<Product>)
    ensures r == Deduplicate(filtered, f)
  {
    var hasSpecificFilters := |f.sizes| > 0 || |f.colors| > 0;
    var hasAnyFilter := hasSpecificFilters || |f.category| > 0 || |f.subcategory| > 0
      || |f.gender| > 0 || |f.brands| > 0
      || f.isNew || f.isFeatured || f.isBestSeller || f.hasDiscount;
    if !hasAnyFilter {
      r := GetUniqueProductsFromArray(filtered);
    } else if !hasSpecificFilters {
      r := GetUniqueProductsFromArray(filtered);
    } else {
      r := SmartDeduplicateVariations(filtered);
    }
  }

  /** The sort switch of applyFilters; an unknown key leaves the order. */
  method SortFiltered(filtered: seq<Product>, sortBy: string) returns (r: seq<Product>)
    ensures r == ApplySort(filtered, sortBy)
  {
    r := filtered;
    if sortBy == "price-asc" {
      r := SortBy(r, PriceAscending);
    } else if sortBy == "price-desc" {
      r := SortBy(r, PriceDescending);
    } else if sortBy == "name-asc" {
      r := SortBy(r, NameAscending);
    } else if sortBy == "newest" {
      r := SortBy(r, NewestFirst);
    } else if sortBy == "featured" {
      r := SortBy(r, FeaturedFirst);
    } else if sortBy == "best-sellers" {
      r := SortBy(r, BestSellerFirst);
    }
  }

  /** The computation of applyFilters on values: filter, deduplicate, sort. */
  method FilterDedupSort(all: seq<Product>, f: Filters) returns (r: seq<Product>)
    ensures r == ApplyFiltersResult(all, f)
  {
    r := FilterChain(all, f);
    r := DeduplicateFiltered(r, f);
    r := SortFiltered(r, f.sortBy);
  }

  /** `current.forEach(p => selected.add(p.id))`. */
  method AddPageIds(selected: set<string>, current: seq<Product>) returns (selection: set<string>)
    ensures selection == selected + PageIds(current)
  {
    selection := selected;
    var i := 0;
    while i < |current|
      invariant 0 <= i <= |current|
      invariant selection == selected + PageIds(current[..i])
    {
      assert current[..i + 1] == current[..i] + [current[i]];
      PageIdsAppend(current[..i], current[i]);
      selection := selection + {current[i].id};
      i := i + 1;
    }
    assert current[..i] == current;
  }

  /** The records initialize works on: `window.preloadedProducts` when it
      holds any, otherwise the answer of fetchProducts. */
  function LoadedRecords(preloaded: seq<Product>, fetched: seq<Product>): (r: seq<Product>)
    ensures preloaded != [] ==> r == preloaded
    ensures preloaded == [] ==> r == fetched
    ensures r == [] <==> preloaded == [] && fetched == []
  {
    if |preloaded| > 0 then preloaded else fetched
  }

  class ProductCatalog {
    var allProducts: seq<Product>
    var filteredProducts: seq<Product>
    var currentPage: int
    var selectedProducts: set<string>
    var filters: Filters
    var productGroups: map<string, seq<Product>>
    var isLoading: bool

    constructor()
      ensures allProducts == [] && filteredProducts == [] && currentPage == 1
      ensures selectedProducts == {} && filters == DefaultFilters
      ensures productGroups == map[] && isLoading
    {
      allProducts := [];
      filteredProducts := [];
      currentPage := 1;
      selectedProducts := {};
      filters := DefaultFilters;
      productGroups := map[];
      isLoading := true;
    }

    /** initialize, from the moment the records have arrived: an empty
        answer is the error path (loading ends, nothing is grouped or
        filtered); otherwise the records are grouped and filtered. */
    method Initialize(fetched: seq<Product>) returns (ok: bool)
      modifies this
      ensures ok <==> fetched != []
      ensures allProducts == fetched && !isLoading && filters == old(filters)
      ensures !ok ==> (filteredProducts == old(filteredProducts) && productGroups == old(productGroups)
        && currentPage == old(currentPage) && selectedProducts == old(selectedProducts))
      ensures ok ==> (GroupsOf(productGroups, fetched)
        && filteredProducts == ApplyFiltersResult(fetched, filters)
        && currentPage == 1 && selectedProducts == {})
    {
      allProducts := fetched;
      if |allProducts| == 0 {
        isLoading := false;
        return false;
      }
      productGroups := GroupProductsByID(allProducts);
      ApplyFilters();
      isLoading := false;
      ok := true;
    }

    /** applyFilters: the filter chain, then the deduplication policy, then
        the sort; the page goes back to 1 and the selection is emptied. The
        records themselves are not touched. */
    method ApplyFilters()
      modifies this
      ensures filteredProducts == ApplyFiltersResult(allProducts, filters)
      ensures currentPage == 1 && selectedProducts == {}
      ensures allProducts == old(allProducts) && filters == old(filters)
      ensures productGroups == old(productGroups) && isLoading == old(isLoading)
    {
      var filtered := FilterDedupSort(allProducts, filters);
      ShowResults(filtered);
    }

    /** The end of applyFilters: store the list, go back to page 1 and
        empty the selection. */
    method ShowResults(filtered: seq<Product>)
      modifies this
      ensures filteredProducts == filtered
      ensures currentPage == 1 && selectedProducts == {}
      ensures allProducts == old(allProducts) && filters == old(filters)
      ensures productGroups == old(productGroups) && isLoading == old(isLoading)
    {
      filteredProducts := filtered;
      currentPage := 1;
      selectedProducts := {};
    }

    /** setFilter: toggle `value` in an array dimension, or assign the sort
        key; then re-filter. */
    method SetFilter(key: FilterKey, value: string)
      modifies this
      ensures productGroups == old(productGroups) && isLoading == old(isLoading)
      ensures key.ListKey? ==>
        filters == WithValues(old(filters), key.d, Toggle(Values(old(filters), key.d), value))
      ensures key.SortKey? ==> filters == old(filters).(sortBy := value)
      ensures allProducts == old(allProducts)
      ensures filteredProducts == ApplyFiltersResult(allProducts, filters)
      ensures currentPage == 1 && selectedProducts == {}
    {
      match key {
        case ListKey(d) =>
          filters := WithValues(filters, d, Toggle(Values(filters, d), value));
        case SortKey =>
          filters := filters.(sortBy := value);
      }
      ApplyFilters();
    }

    /** clearFilters: back to the default filter state, then re-filter. */
    method ClearFilters()
      modifies this
      ensures productGroups == old(productGroups) && isLoading == old(isLoading)
      ensures filters == DefaultFilters
      ensures allProducts == old(allProducts)
      ensures filteredProducts == ApplyFiltersResult(allProducts, DefaultFilters)
      ensures currentPage == 1 && selectedProducts == {}
    {
      filters := DefaultFilters;
      ApplyFilters();
    }

    /** setPriceRange: replace the inclusive price range, then re-filter. */
    method SetPriceRange(min: int, max: int)
      modifies this
      ensures productGroups == old(productGroups) && isLoading == old(isLoading)
      ensures filters == old(filters).(priceMin := min, priceMax := max)
      ensures allProducts == old(allProducts)
      ensures filteredProducts == ApplyFiltersResult(allProducts, filters)
      ensures currentPage == 1 && selectedProducts == {}
    {
      filters := filters.(priceMin := min, priceMax := max);
      ApplyFilters();
    }

    /** removeFilter: for every array-valued key of the filter object, keep
        the entries other than `value`; then re-filter. The price range is
        an array of numbers, which a string never equals, so it stays. */
    method RemoveFilter(value: string)
      modifies this
      ensures productGroups == old(productGroups) && isLoading == old(isLoading)
      ensures filters == RemoveEverywhere(old(filters), value)
      ensures allProducts == old(allProducts)
      ensures filteredProducts == ApplyFiltersResult(allProducts, filters)
      ensures currentPage == 1 && selectedProducts == {}
    {
      var f0 := filters;
      var i := 0;
      while i < |AllDimensions|
        invariant 0 <= i <= |AllDimensions|
        invariant allProducts == old(allProducts)
        invariant productGroups == old(productGroups) && isLoading == old(isLoading)
        invariant forall d :: d in AllDimensions[..i] ==> Values(filters, d) == RemoveValue(Values(f0, d), value)
        invariant forall d :: d !in AllDimensions[..i] ==> Values(filters, d) == Values(f0, d)
        invariant filters.priceMin == f0.priceMin && filters.priceMax == f0.priceMax
        invariant filters.sortBy == f0.sortBy
        invariant forall fl :: FlagValue(filters, fl) == FlagValue(f0, fl)
      {
        var d := AllDimensions[i];
        assert AllDimensions[..i + 1] == AllDimensions[..i] + [d];
        assert d !in AllDimensions[..i];
        filters := WithValues(filters, d, RemoveValue(Values(filters, d), value));
        i := i + 1;
      }
      assert AllDimensions[..i] == AllDimensions;
      AllDimensionsListed();
      FiltersEqual(filters, RemoveEverywhere(f0, value));
      ApplyFilters();
    }

    /** setPage: any page number is accepted as it is. */
    method SetPage(page: int)
      modifies this
      ensures productGroups == old(productGroups) && isLoading == old(isLoading)
      ensures currentPage == page
      ensures allProducts == old(allProducts) && filteredProducts == old(filteredProducts)
      ensures filters == old(filters) && selectedProducts == old(selectedProducts)
    {
      currentPage := page;
    }

    /** toggleProductSelection: delete the id when selected, add it
        otherwise. */
    method ToggleProductSelection(id: string)
      modifies this
      ensures productGroups == old(productGroups) && isLoading == old(isLoading)
      ensures selectedProducts == FlipSelection(old(selectedProducts), id)
      ensures allProducts == old(allProducts) && filteredProducts == old(filteredProducts)
      ensures filters == old(filters) && currentPage == old(currentPage)
    {
      if id in selectedProducts {
        selectedProducts := selectedProducts - {id};
      } else {
        selectedProducts := selectedProducts + {id};
      }
    }

    /** toggleSelectAll: clear the selection when it is as large as the
        current page, otherwise add every id of the current page. */
    method ToggleSelectAll()
      modifies this
      ensures productGroups == old(productGroups) && isLoading == old(isLoading)
      ensures selectedProducts == SelectAll(old(selectedProducts), PageItems(filteredProducts, currentPage))
      ensures allProducts == old(allProducts) && filteredProducts == old(filteredProducts)
      ensures filters == old(filters) && currentPage == old(currentPage)
    {
      var current := CurrentPageProducts();
      if |selectedProducts| == |current| {
        selectedProducts := {};
      } else {
        var selection := AddPageIds(selectedProducts, current);
        selectedProducts := selection;
      }
    }

    /** getCurrentPageProducts: the slice of the filtered list for the
        current page; for a page from 1 to the last it is the records
        [(page-1)*6, min(page*6, n)), and never more than six. */
    function CurrentPageProducts(): (page: seq<Product>)
      reads this`filteredProducts, this`currentPage
      ensures |page| <= ItemsPerPage
      ensures forall x :: x in page ==> x in filteredProducts
    {
      PageItemsWithin(filteredProducts, currentPage);
      PageItems(filteredProducts, currentPage)
    }

    /** getTotalPages: ceil(n / 6), which is 0 for an empty list. */
    function TotalPageCount(): (t: nat)
      reads this`filteredProducts, this`currentPage
      ensures t * ItemsPerPage >= |filteredProducts|
      ensures t > 0 ==> (t - 1) * ItemsPerPage < |filteredProducts|
      ensures t == 0 <==> filteredProducts == []
    {
      TotalPages(|filteredProducts|)
    }

    /** The page buttons renderPagination shows for the current state. */
    function PageButtons(): (r: seq<PageEntry>)
      reads this`filteredProducts, this`currentPage
      ensures TotalPageCount() > 7 ==> |r| == 7 && r[0] == PageNumber(1) && r[6] == PageNumber(TotalPageCount())
      ensures TotalPageCount() > 7 && 1 <= currentPage <= TotalPageCount() ==> PageNumber(currentPage) in r
      ensures TotalPageCount() <= 1 ==> r == []
    {
      var t := TotalPageCount();
      if t > 7 then PageListLong(t, currentPage); PageList(t, currentPage)
      else PageList(t, currentPage)
    }
  }
}
