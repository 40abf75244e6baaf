/** The sort orders of applyFilters and the result it stores
    (js/products.js:155-292): filter chain, deduplication policy, sort. */
module CatalogQuery {
  import opened ProductData
  import opened Seqs
  import opened Text
  import opened CatalogFilters
  import opened CatalogDedup

  function PriceAscending(a: Product, b: Product): bool { a.price <= b.price }
  function PriceDescending(a: Product, b: Product): bool { a.price >= b.price }
  function NameAscending(a: Product, b: Product): bool { LexLe(a.name, b.name) }
  function NewestFirst(a: Product, b: Product): bool { a.dateAdded >= b.dateAdded }
  function FeaturedFirst(a: Product, b: Product): bool { a.isFeatured || !b.isFeatured }
  function BestSellerFirst(a: Product, b: Product): bool { a.isBestSeller || !b.isBestSeller }
  function IsFeatured(p: Product): bool { p.isFeatured }
  function NotFeatured(p: Product): bool { !p.isFeatured }
  function IsBestSeller(p: Product): bool { p.isBestSeller }
  function NotBestSeller(p: Product): bool { !p.isBestSeller }

  /** The `switch (sortBy)` of applyFilters; an unknown key leaves the order. */
  function ApplySort(s: seq<Product>, sortBy: string): (r: seq<Product>)
    ensures multiset(r) == multiset(s)
  {
    if sortBy == "price-asc" then SortBy(s, PriceAscending)
    else if sortBy == "price-desc" then SortBy(s, PriceDescending)
    else if sortBy == "name-asc" then SortBy(s, NameAscending)
    else if sortBy == "newest" then SortBy(s, NewestFirst)
    else if sortBy == "featured" then SortBy(s, FeaturedFirst)
    else if sortBy == "best-sellers" then SortBy(s, BestSellerFirst)
    else s
  }

  /** The price sorts order by price. */
  lemma PriceSortsOrdered(s: seq<Product>)
    ensures forall i, j :: 0 <= i < j < |ApplySort(s, "price-asc")| ==>
      ApplySort(s, "price-asc")[i].price <= ApplySort(s, "price-asc")[j].price
    ensures forall i, j :: 0 <= i < j < |ApplySort(s, "price-desc")| ==>
      ApplySort(s, "price-desc")[i].price >= ApplySort(s, "price-desc")[j].price
  {
    SortBySorted(s, PriceAscending);
    SortBySorted(s, PriceDescending);
  }

  /** `newest` puts later `dateAdded` keys first. */
  lemma NewestSortOrdered(s: seq<Product>)
    ensures forall i, j :: 0 <= i < j < |ApplySort(s, "newest")| ==>
      ApplySort(s, "newest")[i].dateAdded >= ApplySort(s, "newest")[j].dateAdded
  {
    SortBySorted(s, NewestFirst);
  }

  /** `name-asc` orders the names. */
  lemma NameSortOrdered(s: seq<Product>)
    ensures forall i, j :: 0 <= i < j < |ApplySort(s, "name-asc")| ==>
      LexLe(ApplySort(s, "name-asc")[i].name, ApplySort(s, "name-asc")[j].name)
  {
    forall a, b
      ensures NameAscending(a, b) || NameAscending(b, a)
    {
      LexLeTotal(a.name, b.name);
    }
    forall a, b, c | NameAscending(a, b) && NameAscending(b, c)
      ensures NameAscending(a, c)
    {
      LexLeTransitive(a.name, b.name, c.name);
    }
    SortBySorted(s, NameAscending);
  }

  /** `featured` puts the featured records first and keeps the input order
      among the featured and among the other records. */
  lemma FeaturedSortPartition(s: seq<Product>)
    ensures ApplySort(s, "featured") == Keep(s, IsFeatured) + Keep(s, NotFeatured)
  {
    assert ApplySort(s, "featured") == SortBy(s, FeaturedFirst);
    assert forall a, b :: FeaturedFirst(a, b) == (IsFeatured(a) || !IsFeatured(b));
    assert forall a :: NotFeatured(a) == !IsFeatured(a);
    SortByClassFirst(s, FeaturedFirst, IsFeatured, NotFeatured);
  }

  /** `best-sellers` puts the best sellers first and keeps the input order
      among the best sellers and among the other records. */
  lemma BestSellerSortPartition(s: seq<Product>)
    ensures ApplySort(s, "best-sellers") == Keep(s, IsBestSeller) + Keep(s, NotBestSeller)
  {
    assert ApplySort(s, "best-sellers") == SortBy(s, BestSellerFirst);
    assert forall a, b :: BestSellerFirst(a, b) == (IsBestSeller(a) || !IsBestSeller(b));
    assert forall a :: NotBestSeller(a) == !IsBestSeller(a);
    SortByClassFirst(s, BestSellerFirst, IsBestSeller, NotBestSeller);
  }

  /** What applyFilters stores in filteredProducts. */
  function ApplyFiltersResult(all: seq<Product>, f: Filters): seq<Product> {
    ApplySort(Deduplicate(Filtered(all, f), f), f.sortBy)
  }

  /** Every card shown is a record of the catalog that satisfies every
      active filter. */
  lemma ApplyFiltersSound(all: seq<Product>, f: Filters)
    ensures forall y :: y in ApplyFiltersResult(all, f) ==> y in all && SatisfiesFilters(f, y)
  {
    var fs := Filtered(all, f);
    var d := Deduplicate(fs, f);
    var r := ApplyFiltersResult(all, f);
    if HasSpecificFilters(f) {
      SmartDedupMembers(fs);
    } else {
      FirstPerKeySubset(fs, GroupKey);
    }
    forall y | y in r
      ensures y in all && SatisfiesFilters(f, y)
    {
      assert y in multiset(r);
      assert y in d;
      FilteredMembers(all, f, y);
    }
  }

  /** Every group that has a record satisfying every active filter gets a
      card; with a size or colour filter, so does every (group, colour)
      pair of such records. */
  lemma ApplyFiltersComplete(all: seq<Product>, f: Filters)
    ensures forall x :: x in all && SatisfiesFilters(f, x) ==>
      GroupKey(x) in KeysOf(ApplyFiltersResult(all, f), GroupKey)
    ensures HasSpecificFilters(f) ==> forall x :: x in all && SatisfiesFilters(f, x) ==>
      Variant(x) in KeysOf(ApplyFiltersResult(all, f), Variant)
  {
    var fs := Filtered(all, f);
    var d := Deduplicate(fs, f);
    var r := ApplyFiltersResult(all, f);
    assert multiset(r) == multiset(d);
    forall x | x in all && SatisfiesFilters(f, x)
      ensures GroupKey(x) in KeysOf(r, GroupKey)
      ensures HasSpecificFilters(f) ==> Variant(x) in KeysOf(r, Variant)
    {
      FilteredMembers(all, f, x);
      var y: Product;
      if HasSpecificFilters(f) {
        SmartDedupCovers(fs);
        assert Variant(x) in KeysOf(fs, Variant);
        y :| y in d && Variant(y) == Variant(x);
      } else {
        UniqueByGroupFacts(fs);
        assert GroupKey(x) in KeysOf(fs, GroupKey);
        y :| y in d && GroupKey(y) == GroupKey(x);
      }
      assert y in multiset(d);
      assert y in r;
    }
  }

  /** Without a size or colour filter no two cards share a group; with one,
      no two cards share a group and a colour. */
  lemma ApplyFiltersUnique(all: seq<Product>, f: Filters)
    ensures !HasSpecificFilters(f) ==> DistinctKeys(ApplyFiltersResult(all, f), GroupKey)
    ensures HasSpecificFilters(f) ==> DistinctKeys(ApplyFiltersResult(all, f), Variant)
  {
    var fs := Filtered(all, f);
    var d := Deduplicate(fs, f);
    if HasSpecificFilters(f) {
      SmartDedupDistinct(fs);
      PermutationKeepsDistinct(d, ApplyFiltersResult(all, f), Variant);
    } else {
      FirstPerKeyDistinct(fs, GroupKey);
      PermutationKeepsDistinct(d, ApplyFiltersResult(all, f), GroupKey);
    }
  }
}
