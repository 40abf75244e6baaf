/** Grouping of product records by `productId || id` and the two
    deduplication policies of ProductCatalog (js/products.js): one card per
    group (getUniqueProductsFromArray) or one card per group and colour
    (smartDeduplicateVariations). */
module CatalogDedup {
  import opened ProductData
  import opened Seqs

  /** The records of `s` whose group key is `k`, in input order: the array
      groupProductsByID builds for `k`. */
  function GroupOf(s: seq<Product>, k: string): seq<Product> {
    Keep(s, p => GroupKey(p) == k)
  }

  /** Group `k` holds exactly the records whose key is `k`. */
  lemma GroupOfMembers(s: seq<Product>, k: string)
    ensures forall y :: y in GroupOf(s, k) ==> y in s && GroupKey(y) == k
    ensures forall i :: 0 <= i < |s| && GroupKey(s[i]) == k ==> s[i] in GroupOf(s, k)
  {
    KeepMembers(s, p => GroupKey(p) == k);
  }

  /** Grouping `s + [x]` appends `x` to its own group only. */
  lemma GroupOfAppend(s: seq<Product>, x: Product, k: string)
    ensures GroupOf(s + [x], k) == GroupOf(s, k) + (if GroupKey(x) == k then [x] else [])
  {
    assert (s + [x])[..|s + [x]| - 1] == s;
  }

  /** One card per group: the first record of each group, in order of first
      appearance. */
  function UniqueByGroup(s: seq<Product>): seq<Product> {
    FirstPerKey(s, GroupKey)
  }

  /** The group keys of a sequence, position by position. */
  function KeySeq(u: seq<Product>): (ks: seq<string>)
    ensures |ks| == |u|
    ensures forall i :: 0 <= i < |u| ==> ks[i] == GroupKey(u[i])
  {
    if u == [] then [] else KeySeq(u[..|u| - 1]) + [GroupKey(u[|u| - 1])]
  }

  /** The group keys in order of first appearance: the iteration order of
      the Map that smartDeduplicateVariations fills. */
  function GroupOrder(s: seq<Product>): seq<string> {
    KeySeq(FirstPerKey(s, GroupKey))
  }

  /** The cards one group contributes: its only record, or its first record
      of each colour. */
  function DedupGroup(g: seq<Product>): seq<Product> {
    if |g| == 1 then [g[0]] else FirstPerKey(g, ColorOf)
  }

  /** The cards of the groups `ks`, group after group. */
  function ConcatGroups(s: seq<Product>, ks: seq<string>): seq<Product> {
    if ks == [] then []
    else ConcatGroups(s, ks[..|ks| - 1]) + DedupGroup(GroupOf(s, ks[|ks| - 1]))
  }

  /** smartDeduplicateVariations. */
  function SmartDedup(s: seq<Product>): seq<Product> {
    ConcatGroups(s, GroupOrder(s))
  }

  /** The (group, colour) pair that identifies a card under the smart policy. */
  function Variant(p: Product): (string, string) {
    (GroupKey(p), p.color)
  }

  /** A size or colour filter is set (`hasSpecificFilters`). */
  predicate HasSpecificFilters(f: Filters) {
    |f.sizes| > 0 || |f.colors| > 0
  }

  /** Any filter other than the price range is set (`hasAnyFilter`). */
  predicate HasAnyFilter(f: Filters) {
    HasSpecificFilters(f) || |f.category| > 0 || |f.subcategory| > 0
    || |f.gender| > 0 || |f.brands| > 0
    || f.isNew || f.isFeatured || f.isBestSeller || f.hasDiscount
  }

  /** The deduplication policy applyFilters chooses. The first two branches
      of the source pick the same policy. */
  function Deduplicate(s: seq<Product>, f: Filters): seq<Product> {
    if !HasAnyFilter(f) then UniqueByGroup(s)
    else if !HasSpecificFilters(f) then UniqueByGroup(s)
    else SmartDedup(s)
  }

  /** The group order lists every group key of the input exactly once. */
  lemma GroupOrderFacts(s: seq<Product>)
    ensures forall i, j :: 0 <= i < j < |GroupOrder(s)| ==> GroupOrder(s)[i] != GroupOrder(s)[j]
    ensures forall k :: k in GroupOrder(s) <==> k in KeysOf(s, GroupKey)
  {
    var u := FirstPerKey(s, GroupKey);
    FirstPerKeyDistinct(s, GroupKey);
    FirstPerKeyKeys(s, GroupKey);
    forall k
      ensures k in GroupOrder(s) <==> k in KeysOf(s, GroupKey)
    {
      if k in GroupOrder(s) {
        var i :| 0 <= i < |u| && GroupOrder(s)[i] == k;
        assert u[i] in u;
      }
      if k in KeysOf(u, GroupKey) {
        var y :| y in u && GroupKey(y) == k;
        var i :| 0 <= i < |u| && u[i] == y;
        assert GroupOrder(s)[i] == k;
      }
    }
  }

  /** The cards of group `k` are records of the input from group `k`. */
  lemma DedupGroupMembers(s: seq<Product>, k: string)
    ensures forall y :: y in DedupGroup(GroupOf(s, k)) ==> y in s && GroupKey(y) == k
  {
    var g := GroupOf(s, k);
    GroupOfMembers(s, k);
    if |g| != 1 {
      FirstPerKeySubset(g, ColorOf);
    }
    forall y | y in DedupGroup(g)
      ensures y in s && GroupKey(y) == k
    {
      var i :| 0 <= i < |g| && g[i] == y;
    }
  }

  /** No two cards of one group share a colour. */
  lemma DedupGroupDistinct(s: seq<Product>, k: string)
    ensures DistinctKeys(DedupGroup(GroupOf(s, k)), ColorOf)
  {
    var g := GroupOf(s, k);
    if |g| != 1 {
      FirstPerKeyDistinct(g, ColorOf);
    }
  }

  /** Each card of a group is that group's first record of its colour. */
  lemma DedupGroupFirst(s: seq<Product>, k: string)
    ensures forall y :: y in DedupGroup(GroupOf(s, k)) ==>
      ColorOf(y) in KeysOf(GroupOf(s, k), ColorOf) &&
      y == GroupOf(s, k)[FirstIndex(GroupOf(s, k), ColorOf, ColorOf(y))]
  {
    var g := GroupOf(s, k);
    var d := DedupGroup(g);
    if |g| == 1 {
      assert g[0] in g;
    } else {
      FirstPerKeyFirst(g, ColorOf);
      forall y | y in d
        ensures ColorOf(y) in KeysOf(g, ColorOf) && y == g[FirstIndex(g, ColorOf, ColorOf(y))]
      {
        var j :| 0 <= j < |d| && d[j] == y;
      }
    }
  }

  /** Every colour of group `k` has a card. */
  lemma DedupGroupCovers(s: seq<Product>, k: string)
    ensures forall x :: x in s && GroupKey(x) == k ==> Variant(x) in KeysOf(DedupGroup(GroupOf(s, k)), Variant)
  {
    var g := GroupOf(s, k);
    var d := DedupGroup(g);
    GroupOfMembers(s, k);
    DedupGroupMembers(s, k);
    if |g| != 1 {
      FirstPerKeyKeys(g, ColorOf);
    }
    forall x | x in s && GroupKey(x) == k
      ensures Variant(x) in KeysOf(d, Variant)
    {
      var n :| 0 <= n < |s| && s[n] == x;
      assert x in g;
      if |g| == 1 {
        assert d[0] in d;
        assert Variant(d[0]) == Variant(x);
      } else {
        assert ColorOf(x) in KeysOf(g, ColorOf);
        var y :| y in d && ColorOf(y) == ColorOf(x);
        assert Variant(y) == Variant(x);
      }
    }
  }

  lemma {:induction false} ConcatGroupsMembers(s: seq<Product>, ks: seq<string>)
    ensures forall y :: y in ConcatGroups(s, ks) ==> y in s && GroupKey(y) in ks
  {
    if ks != [] {
      var ks', k := ks[..|ks| - 1], ks[|ks| - 1];
      ConcatGroupsMembers(s, ks');
      DedupGroupMembers(s, k);
      assert forall y :: y in ks' ==> y in ks;
    }
  }

  lemma {:induction false} ConcatGroupsDistinct(s: seq<Product>, ks: seq<string>)
    requires forall i, j :: 0 <= i < j < |ks| ==> ks[i] != ks[j]
    ensures DistinctKeys(ConcatGroups(s, ks), Variant)
  {
    if ks != [] {
      var ks', k := ks[..|ks| - 1], ks[|ks| - 1];
      ConcatGroupsDistinct(s, ks');
      ConcatGroupsMembers(s, ks');
      DedupGroupMembers(s, k);
      DedupGroupDistinct(s, k);
      var r', d := ConcatGroups(s, ks'), DedupGroup(GroupOf(s, k));
      var r := r' + d;
      assert k !in ks';
      forall i, j | 0 <= i < j < |r|
        ensures Variant(r[i]) != Variant(r[j])
      {
        if j < |r'| {
          assert r[i] == r'[i] && r[j] == r'[j];
        } else if i < |r'| {
          assert r[i] == r'[i] && r[j] == d[j - |r'|];
          assert r'[i] in r' && d[j - |r'|] in d;
        } else {
          assert r[i] == d[i - |r'|] && r[j] == d[j - |r'|];
          assert d[i - |r'|] in d && d[j - |r'|] in d;
        }
      }
    }
  }

  lemma {:induction false} ConcatGroupsFirst(s: seq<Product>, ks: seq<string>)
    ensures forall y :: y in ConcatGroups(s, ks) ==>
      ColorOf(y) in KeysOf(GroupOf(s, GroupKey(y)), ColorOf) &&
      y == GroupOf(s, GroupKey(y))[FirstIndex(GroupOf(s, GroupKey(y)), ColorOf, ColorOf(y))]
  {
    if ks != [] {
      var ks', k := ks[..|ks| - 1], ks[|ks| - 1];
      ConcatGroupsFirst(s, ks');
      DedupGroupFirst(s, k);
      DedupGroupMembers(s, k);
    }
  }

  lemma {:induction false} ConcatGroupsCovers(s: seq<Product>, ks: seq<string>)
    ensures forall x :: x in s && GroupKey(x) in ks ==> Variant(x) in KeysOf(ConcatGroups(s, ks), Variant)
  {
    if ks != [] {
      var ks', k := ks[..|ks| - 1], ks[|ks| - 1];
      ConcatGroupsCovers(s, ks');
      DedupGroupCovers(s, k);
      KeysOfConcat(ConcatGroups(s, ks'), DedupGroup(GroupOf(s, k)), Variant);
      forall x | x in s && GroupKey(x) in ks
        ensures GroupKey(x) in ks' || GroupKey(x) == k
      {
        var i :| 0 <= i < |ks| && ks[i] == GroupKey(x);
        if i < |ks| - 1 {
          assert ks'[i] == ks[i];
        }
      }
    }
  }

  /** smartDeduplicateVariations keeps only input records. */
  lemma SmartDedupMembers(s: seq<Product>)
    ensures forall y :: y in SmartDedup(s) ==> y in s
  {
    ConcatGroupsMembers(s, GroupOrder(s));
  }

  /** smartDeduplicateVariations never shows two cards of the same group
      and colour. */
  lemma SmartDedupDistinct(s: seq<Product>)
    ensures DistinctKeys(SmartDedup(s), Variant)
  {
    GroupOrderFacts(s);
    ConcatGroupsDistinct(s, GroupOrder(s));
  }

  /** smartDeduplicateVariations shows a card for every (group, colour)
      pair of its input, and for no other pair. */
  lemma SmartDedupCovers(s: seq<Product>)
    ensures KeysOf(SmartDedup(s), Variant) == KeysOf(s, Variant)
  {
    GroupOrderFacts(s);
    ConcatGroupsCovers(s, GroupOrder(s));
    SmartDedupMembers(s);
    forall x | x in s
      ensures GroupKey(x) in GroupOrder(s)
    {
      assert GroupKey(x) in KeysOf(s, GroupKey);
    }
  }

  /** Each card is the first record of its colour within its group. */
  lemma SmartDedupFirst(s: seq<Product>)
    ensures forall y :: y in SmartDedup(s) ==>
      ColorOf(y) in KeysOf(GroupOf(s, GroupKey(y)), ColorOf) &&
      y == GroupOf(s, GroupKey(y))[FirstIndex(GroupOf(s, GroupKey(y)), ColorOf, ColorOf(y))]
  {
    ConcatGroupsFirst(s, GroupOrder(s));
  }

  /** A record that is alone in its group always gets a card. */
  lemma SmartDedupKeepsSingletons(s: seq<Product>, x: Product)
    requires x in s
    requires forall y :: y in s && GroupKey(y) == GroupKey(x) ==> y == x
    ensures x in SmartDedup(s)
  {
    SmartDedupCovers(s);
    SmartDedupMembers(s);
    assert Variant(x) in KeysOf(s, Variant);
    var y :| y in SmartDedup(s) && Variant(y) == Variant(x);
  }

  /** getUniqueProductsFromArray keeps only input records, one per group,
      each the first record of its group, in order of first appearance, and
      every group of the input is represented. */
  lemma UniqueByGroupFacts(s: seq<Product>)
    ensures forall y :: y in UniqueByGroup(s) ==> y in s
    ensures DistinctKeys(UniqueByGroup(s), GroupKey)
    ensures KeysOf(UniqueByGroup(s), GroupKey) == KeysOf(s, GroupKey)
    ensures forall j :: 0 <= j < |UniqueByGroup(s)| ==>
      GroupKey(UniqueByGroup(s)[j]) in KeysOf(s, GroupKey) &&
      UniqueByGroup(s)[j] == s[FirstIndex(s, GroupKey, GroupKey(UniqueByGroup(s)[j]))]
    ensures forall i, j :: 0 <= i < j < |UniqueByGroup(s)| ==>
      GroupKey(UniqueByGroup(s)[i]) in KeysOf(s, GroupKey) &&
      GroupKey(UniqueByGroup(s)[j]) in KeysOf(s, GroupKey) &&
      FirstIndex(s, GroupKey, GroupKey(UniqueByGroup(s)[i])) <
      FirstIndex(s, GroupKey, GroupKey(UniqueByGroup(s)[j]))
  {
    FirstPerKeySubset(s, GroupKey);
    FirstPerKeyDistinct(s, GroupKey);
    FirstPerKeyKeys(s, GroupKey);
    FirstPerKeyFirst(s, GroupKey);
  }
}
