/** The filter state of ProductCatalog (js/products.js): the chain of
    guarded `filter` calls in applyFilters, and the edits setFilter and
    removeFilter make to the filter lists. */
module CatalogFilters {
  import opened ProductData
  import opened Seqs

  /** The filter steps of applyFilters, in the order they run. */
  datatype Step =
    | CategoryStep | SubcategoryStep | GenderStep
    | NewStep | FeaturedStep | BestSellerStep | DiscountStep
    | PriceStep | SizeStep | ColorStep | BrandStep

  /** The guard of a step: a non-empty list or a set flag. The price range
      has no guard. */
  predicate StepActive(f: Filters, st: Step) {
    match st
    case CategoryStep => |f.category| > 0
    case SubcategoryStep => |f.subcategory| > 0
    case GenderStep => |f.gender| > 0
    case NewStep => f.isNew
    case FeaturedStep => f.isFeatured
    case BestSellerStep => f.isBestSeller
    case DiscountStep => f.hasDiscount
    case PriceStep => true
    case SizeStep => |f.sizes| > 0
    case ColorStep => |f.colors| > 0
    case BrandStep => |f.brands| > 0
  }

  /** One of the product's sizes is among `sizes`. */
  predicate SharesSize(p: Product, sizes: seq<string>) {
    exists i :: 0 <= i < |p.sizes| && p.sizes[i] in sizes
  }

  /** The callback a step passes to `filter`. */
  predicate StepAccepts(f: Filters, st: Step, p: Product) {
    match st
    case CategoryStep => p.category in f.category
    case SubcategoryStep => p.subcategory in f.subcategory
    case GenderStep => p.gender in f.gender
    case NewStep => p.isNew
    case FeaturedStep => p.isFeatured
    case BestSellerStep => p.isBestSeller
    case DiscountStep => p.discount > 0
    case PriceStep => f.priceMin <= p.price <= f.priceMax
    case SizeStep => SharesSize(p, f.sizes)
    case ColorStep => p.color in f.colors
    case BrandStep => p.brand in f.brands
  }

  /** `filtered.filter(...)` with a step's callback. */
  function StepFilter(s: seq<Product>, f: Filters, st: Step): seq<Product>
    decreases |s|
  {
    if s == [] then []
    else
      var r := StepFilter(s[..|s| - 1], f, st);
      if StepAccepts(f, st, s[|s| - 1]) then r + [s[|s| - 1]] else r
  }

  /** `filter` keeps exactly the records its callback accepts. */
  lemma {:induction false} StepFilterMembers(s: seq<Product>, f: Filters, st: Step, x: Product)
    ensures x in StepFilter(s, f, st) <==> x in s && StepAccepts(f, st, x)
    decreases |s|
  {
    if s != [] {
      var init := s[..|s| - 1];
      assert s == init + [s[|s| - 1]];
      StepFilterMembers(init, f, st, x);
    }
  }

  /** One guarded `filtered = filtered.filter(...)`. */
  function ApplyStep(s: seq<Product>, f: Filters, st: Step): seq<Product> {
    if StepActive(f, st) then StepFilter(s, f, st) else s
  }

  /** The whole filter chain of applyFilters. */
  function Filtered(s: seq<Product>, f: Filters): seq<Product> {
    var s1 := ApplyStep(s, f, CategoryStep);
    var s2 := ApplyStep(s1, f, SubcategoryStep);
    var s3 := ApplyStep(s2, f, GenderStep);
    var s4 := ApplyStep(s3, f, NewStep);
    var s5 := ApplyStep(s4, f, FeaturedStep);
    var s6 := ApplyStep(s5, f, BestSellerStep);
    var s7 := ApplyStep(s6, f, DiscountStep);
    var s8 := ApplyStep(s7, f, PriceStep);
    var s9 := ApplyStep(s8, f, SizeStep);
    var s10 := ApplyStep(s9, f, ColorStep);
    ApplyStep(s10, f, BrandStep)
  }

  /** The chain, one intermediate list per step. */
  lemma FilteredSteps(all: seq<Product>, f: Filters, s1: seq<Product>, s2: seq<Product>, s3: seq<Product>,
    s4: seq<Product>, s5: seq<Product>, s6: seq<Product>, s7: seq<Product>, s8: seq<Product>,
    s9: seq<Product>, s10: seq<Product>, s11: seq<Product>)
    requires s1 == ApplyStep(all, f, CategoryStep) && s2 == ApplyStep(s1, f, SubcategoryStep)
    requires s3 == ApplyStep(s2, f, GenderStep) && s4 == ApplyStep(s3, f, NewStep)
    requires s5 == ApplyStep(s4, f, FeaturedStep) && s6 == ApplyStep(s5, f, BestSellerStep)
    requires s7 == ApplyStep(s6, f, DiscountStep) && s8 == ApplyStep(s7, f, PriceStep)
    requires s9 == ApplyStep(s8, f, SizeStep) && s10 == ApplyStep(s9, f, ColorStep)
    requires s11 == ApplyStep(s10, f, BrandStep)
    ensures s11 == Filtered(all, f)
  {
  }

  /** What a product must satisfy to survive the filters, stated directly:
      membership in every non-empty list, every set flag, a positive
      discount when asked, a shared size when sizes are chosen and a price
      in the inclusive range. */
  predicate SatisfiesFilters(f: Filters, p: Product) {
    (|f.category| > 0 ==> p.category in f.category)
    && (|f.subcategory| > 0 ==> p.subcategory in f.subcategory)
    && (|f.gender| > 0 ==> p.gender in f.gender)
    && (f.isNew ==> p.isNew)
    && (f.isFeatured ==> p.isFeatured)
    && (f.isBestSeller ==> p.isBestSeller)
    && (f.hasDiscount ==> p.discount > 0)
    && f.priceMin <= p.price <= f.priceMax
    && (|f.sizes| > 0 ==> SharesSize(p, f.sizes))
    && (|f.colors| > 0 ==> p.color in f.colors)
    && (|f.brands| > 0 ==> p.brand in f.brands)
  }

  lemma StepMembers(s: seq<Product>, f: Filters, st: Step, x: Product)
    ensures x in ApplyStep(s, f, st) <==> x in s && (StepActive(f, st) ==> StepAccepts(f, st, x))
  {
    StepFilterMembers(s, f, st, x);
  }

  lemma StepMembersAll(s: seq<Product>, f: Filters, st: Step)
    ensures forall x :: x in ApplyStep(s, f, st) <==> x in s && Passes(f, st, x)
  {
    forall x {
      StepMembers(s, f, st, x);
    }
  }

  /** A product gets past one guarded step. */
  predicate Passes(f: Filters, st: Step, x: Product) {
    StepActive(f, st) ==> StepAccepts(f, st, x)
  }

  /** SatisfiesFilters is getting past every step. */
  lemma SatisfiesEveryStep(f: Filters, x: Product)
    ensures SatisfiesFilters(f, x) <==>
      (Passes(f, CategoryStep, x) && Passes(f, SubcategoryStep, x) && Passes(f, GenderStep, x)
      && Passes(f, NewStep, x) && Passes(f, FeaturedStep, x) && Passes(f, BestSellerStep, x)
      && Passes(f, DiscountStep, x) && Passes(f, PriceStep, x) && Passes(f, SizeStep, x)
      && Passes(f, ColorStep, x) && Passes(f, BrandStep, x))
  {
  }

  /** Membership through four consecutive steps. */
  lemma FourStepsMembers(s0: seq<Product>, s1: seq<Product>, s2: seq<Product>, s3: seq<Product>, s4: seq<Product>,
    f: Filters, a: Step, b: Step, c: Step, d: Step, x: Product)
    requires s1 == ApplyStep(s0, f, a) && s2 == ApplyStep(s1, f, b)
    requires s3 == ApplyStep(s2, f, c) && s4 == ApplyStep(s3, f, d)
    ensures x in s4 <==> x in s0 && Passes(f, a, x) && Passes(f, b, x) && Passes(f, c, x) && Passes(f, d, x)
  {
    StepMembers(s0, f, a, x);
    StepMembers(s1, f, b, x);
    StepMembers(s2, f, c, x);
    StepMembers(s3, f, d, x);
  }

  /** A product survives the filter chain exactly when it is in the input
      and satisfies every active filter. */
  lemma FilteredMembers(s: seq<Product>, f: Filters, x: Product)
    ensures x in Filtered(s, f) <==> x in s && SatisfiesFilters(f, x)
  {
    var s1 := ApplyStep(s, f, CategoryStep);
    var s2 := ApplyStep(s1, f, SubcategoryStep);
    var s3 := ApplyStep(s2, f, GenderStep);
    var s4 := ApplyStep(s3, f, NewStep);
    var s5 := ApplyStep(s4, f, FeaturedStep);
    var s6 := ApplyStep(s5, f, BestSellerStep);
    var s7 := ApplyStep(s6, f, DiscountStep);
    var s8 := ApplyStep(s7, f, PriceStep);
    var s9 := ApplyStep(s8, f, SizeStep);
    var s10 := ApplyStep(s9, f, ColorStep);
    var s11 := ApplyStep(s10, f, BrandStep);
    FilteredSteps(s, f, s1, s2, s3, s4, s5, s6, s7, s8, s9, s10, s11);
    FourStepsMembers(s, s1, s2, s3, s4, f, CategoryStep, SubcategoryStep, GenderStep, NewStep, x);
    FourStepsMembers(s4, s5, s6, s7, s8, f, FeaturedStep, BestSellerStep, DiscountStep, PriceStep, x);
    StepMembers(s8, f, SizeStep, x);
    StepMembers(s9, f, ColorStep, x);
    StepMembers(s10, f, BrandStep, x);
    assert x in s11 <==> x in s8 && Passes(f, SizeStep, x) && Passes(f, ColorStep, x) && Passes(f, BrandStep, x);
    SatisfiesEveryStep(f, x);
  }

  // ---------------------------------------------------------------------
  // The filter lists

  /** The keys setFilter is called with: an array dimension, whose list it
      toggles, or `sortBy`, which it assigns. */
  datatype FilterKey = ListKey(d: Dimension) | SortKey

  /** The array dimensions, in the key order of the filter object that
      clearFilters installs. */
  const AllDimensions: seq<Dimension> := [Category, Subcategory, Gender, Brands, Sizes, Colors]

  lemma AllDimensionsListed()
    ensures forall d :: d in AllDimensions
  {
    forall d
      ensures d in AllDimensions
    {
      match d
      case Category => assert AllDimensions[0] == d;
      case Subcategory => assert AllDimensions[1] == d;
      case Gender => assert AllDimensions[2] == d;
      case Brands => assert AllDimensions[3] == d;
      case Sizes => assert AllDimensions[4] == d;
      case Colors => assert AllDimensions[5] == d;
    }
  }

  /** setFilter on an array dimension: splice out the first occurrence of
      `v`, or push `v` when it is absent. */
  function Toggle(list: seq<string>, v: string): (r: seq<string>)
    ensures v !in list ==> r == list + [v]
    ensures v in list ==> |r| == |list| - 1 && multiset(r) == multiset(list) - multiset{v}
  {
    var i := IndexOf(list, v);
    if i < |list| then
      assert list == list[..i] + [v] + list[i + 1..];
      list[..i] + list[i + 1..]
    else list + [v]
  }

  predicate NoDuplicates(list: seq<string>) {
    forall i, j :: 0 <= i < j < |list| ==> list[i] != list[j]
  }

  /** On a duplicate-free list, setFilter flips the membership of `v`,
      touches no other value and keeps the list duplicate-free. */
  lemma ToggleFlips(list: seq<string>, v: string)
    requires NoDuplicates(list)
    ensures v in Toggle(list, v) <==> v !in list
    ensures forall w :: w != v ==> (w in Toggle(list, v) <==> w in list)
    ensures NoDuplicates(Toggle(list, v))
  {
    if v in list {
      ToggleRemoves(list, v);
    } else {
      var r := Toggle(list, v);
      assert r == list + [v];
      forall a, b | 0 <= a < b < |r|
        ensures r[a] != r[b]
      {
        if b == |list| {
          assert list[a] in list;
        }
      }
    }
  }

  /** Splicing out the only copy of `v`. */
  lemma ToggleRemoves(list: seq<string>, v: string)
    requires NoDuplicates(list) && v in list
    ensures v !in Toggle(list, v)
    ensures forall w :: w != v ==> (w in Toggle(list, v) <==> w in list)
    ensures NoDuplicates(Toggle(list, v))
  {
    var i := IndexOf(list, v);
    var r := Toggle(list, v);
    assert r == list[..i] + list[i + 1..];
    assert forall a :: 0 <= a < |r| ==> r[a] == list[if a < i then a else a + 1];
    forall w | w in list && w != v
      ensures w in r
    {
      var k :| 0 <= k < |list| && list[k] == w;
      assert r[if k < i then k else k - 1] == w;
    }
  }


  /** Setting an absent value twice restores the list. */
  lemma ToggleTwiceAbsent(list: seq<string>, v: string)
    requires v !in list
    ensures Toggle(Toggle(list, v), v) == list
  {
    var r := list + [v];
    assert r[|list|] == v;
    assert r[..|list|] + r[|list| + 1..] == list;
  }

  /** On a duplicate-free list, setting a present value twice brings back
      the same values with that value moved to the end (see
      ToggleTwiceReorders). */
  lemma ToggleTwicePresent(list: seq<string>, v: string)
    requires NoDuplicates(list) && v in list
    ensures multiset(Toggle(Toggle(list, v), v)) == multiset(list)
    ensures Toggle(Toggle(list, v), v)[|list| - 1] == v
  {
    ToggleFlips(list, v);
    var r := Toggle(list, v);
    assert Toggle(r, v) == r + [v];
    assert v in multiset(list);
  }

  /** Setting a present value twice can reorder the list. */
  lemma ToggleTwiceReorders()
    ensures Toggle(Toggle(["a", "b"], "a"), "a") == ["b", "a"]
  {
    var ab: seq<string> := ["a", "b"];
    assert ab[0] == "a" && ab[1..] == ["b"];
    assert IndexOf(ab, "a") == 0;
    assert Toggle(ab, "a") == ["b"];
    assert "b" != "a" by { assert "b"[0] != "a"[0]; }
    assert IndexOf(["b"], "a") == 1;
  }

  /** removeFilter on one list: every copy of `v` goes, the rest keep their
      order. */
  function RemoveValue(list: seq<string>, v: string): (r: seq<string>)
    ensures v !in r
    ensures forall w :: w != v ==> (w in r <==> w in list)
  {
    var r := Keep(list, Other(v));
    KeepMembers(list, Other(v));
    assert forall w :: w != v && w in list ==> w in r by {
      forall w | w != v && w in list
        ensures w in r
      {
        var i :| 0 <= i < |list| && list[i] == w;
        assert Other(v)(list[i]);
      }
    }
    r
  }

  /** The test that `filter(v => v !== value)` applies. */
  function Other(v: string): string -> bool {
    w => w != v
  }

  /** Removing works from the front of the list: the first value is kept
      unless it is the one removed, ahead of what remains of the rest, so
      the remaining values keep their order and their repeats. */
  lemma RemoveValueFront(list: seq<string>, v: string)
    requires list != []
    ensures RemoveValue(list, v) == (if list[0] == v then [] else [list[0]]) + RemoveValue(list[1..], v)
  {
    assert list == [list[0]] + list[1..];
    KeepAppend([list[0]], list[1..], Other(v));
    assert [list[0]][..0] == [];
  }

  /** A list without the value is left as it is. */
  lemma RemoveValueAbsent(list: seq<string>, v: string)
    requires v !in list
    ensures RemoveValue(list, v) == list
  {
    KeepAll(list, Other(v));
  }


  /** removeFilter: drop `v` from every array dimension; the price range,
      the sort key and the flags stay. */
  function RemoveEverywhere(f: Filters, v: string): (g: Filters)
    ensures forall d :: v !in Values(g, d)
    ensures forall d, w :: w != v ==> (w in Values(g, d) <==> w in Values(f, d))
    ensures g.priceMin == f.priceMin && g.priceMax == f.priceMax && g.sortBy == f.sortBy
    ensures forall fl :: FlagValue(g, fl) == FlagValue(f, fl)
  {
    f.(category := RemoveValue(f.category, v),
       subcategory := RemoveValue(f.subcategory, v),
       gender := RemoveValue(f.gender, v),
       brands := RemoveValue(f.brands, v),
       sizes := RemoveValue(f.sizes, v),
       colors := RemoveValue(f.colors, v))
  }
}
