/** Slice pagination, the page-number list of renderPagination and the
    selection set of ProductCatalog (js/products.js:337-395, 644-658). */
module CatalogPages {
  import opened ProductData

  /** CONFIG.ITEMS_PER_PAGE (js/config.js). */
  const ItemsPerPage: nat := 6

  /** Math.ceil(n / ITEMS_PER_PAGE). */
  function TotalPages(n: nat): (t: nat)
    ensures t * ItemsPerPage >= n
    ensures t > 0 ==> (t - 1) * ItemsPerPage < n
    ensures t == 0 <==> n == 0
  {
    (n + ItemsPerPage - 1) / ItemsPerPage
  }

  /** Where Array.prototype.slice starts or ends for index `k`: a negative
      index counts from the end, and the result is clamped to [0, n]. */
  function SliceBound(k: int, n: nat): (b: nat)
    ensures b <= n
    ensures 0 <= k <= n ==> b == k
  {
    if k < 0 then (if n + k < 0 then 0 else n + k) else if k > n then n else k
  }

  /** Array.prototype.slice(start, end). */
  function JsSlice<T>(s: seq<T>, start: int, end: int): seq<T> {
    var b, e := SliceBound(start, |s|), SliceBound(end, |s|);
    if b < e then s[b..e] else []
  }

  /** getCurrentPageProducts for page `page`. */
  function PageItems<T>(s: seq<T>, page: int): seq<T> {
    JsSlice(s, (page - 1) * ItemsPerPage, (page - 1) * ItemsPerPage + ItemsPerPage)
  }

  /** Any page, even one out of range, holds at most six records of the
      list. */
  lemma PageItemsWithin<T>(s: seq<T>, page: int)
    ensures |PageItems(s, page)| <= ItemsPerPage
    ensures forall x :: x in PageItems(s, page) ==> x in s
  {
    var b := SliceBound((page - 1) * ItemsPerPage, |s|);
    var e := SliceBound((page - 1) * ItemsPerPage + ItemsPerPage, |s|);
    if b < e {
      assert forall i :: b <= i < e ==> s[b..e][i - b] == s[i];
    }
  }

  /** Pages 1 to k, one after the other. */
  function PagesUpTo<T>(s: seq<T>, k: nat): seq<T> {
    if k == 0 then [] else PagesUpTo(s, k - 1) + PageItems(s, k)
  }

  function Min(a: int, b: int): int { if a <= b then a else b }

  /** Each page from 1 to the last is the slice [(p-1)*6, min(p*6, n)):
      non-empty and at most six records. */
  lemma PageBounds<T>(s: seq<T>, p: int)
    requires 1 <= p <= TotalPages(|s|)
    ensures (p - 1) * ItemsPerPage < |s|
    ensures PageItems(s, p) == s[(p - 1) * ItemsPerPage..Min(p * ItemsPerPage, |s|)]
    ensures 0 < |PageItems(s, p)| <= ItemsPerPage
  {
    var t := TotalPages(|s|);
    assert (p - 1) * ItemsPerPage <= (t - 1) * ItemsPerPage;
  }

  lemma {:induction false} PagesUpToPrefix<T>(s: seq<T>, k: nat)
    requires k <= TotalPages(|s|)
    ensures PagesUpTo(s, k) == s[..Min(k * ItemsPerPage, |s|)]
  {
    if k > 0 {
      PagesUpToPrefix(s, k - 1);
      PageBounds(s, k);
      assert (k - 1) * ItemsPerPage < |s|;
      assert Min((k - 1) * ItemsPerPage, |s|) == (k - 1) * ItemsPerPage;
      assert s[..(k - 1) * ItemsPerPage] + s[(k - 1) * ItemsPerPage..Min(k * ItemsPerPage, |s|)]
        == s[..Min(k * ItemsPerPage, |s|)];
    }
  }

  /** The pages 1 to getTotalPages(), laid end to end, are exactly the list,
      and the pages after the last are empty. */
  lemma PagesPartition<T>(s: seq<T>)
    ensures PagesUpTo(s, TotalPages(|s|)) == s
    ensures forall p :: p > TotalPages(|s|) ==> PageItems(s, p) == []
  {
    PagesUpToPrefix(s, TotalPages(|s|));
    forall p | p > TotalPages(|s|)
      ensures PageItems(s, p) == []
    {
      assert (p - 1) * ItemsPerPage >= TotalPages(|s|) * ItemsPerPage;
    }
  }

  /** An entry of the page-number list: a page button or an ellipsis. */
  datatype PageEntry = PageNumber(n: int) | Ellipsis

  /** The `pages` array renderPagination builds; with one page or none it
      renders nothing. */
  function PageList(total: int, current: int): seq<PageEntry> {
    if total <= 1 then []
    else if total <= 7 then seq(total, i => PageNumber(i + 1))
    else if current <= 3 then
      [PageNumber(1), PageNumber(2), PageNumber(3), PageNumber(4), PageNumber(5), Ellipsis, PageNumber(total)]
    else if current >= total - 2 then
      [PageNumber(1), Ellipsis, PageNumber(total - 4), PageNumber(total - 3),
       PageNumber(total - 2), PageNumber(total - 1), PageNumber(total)]
    else
      [PageNumber(1), Ellipsis, PageNumber(current - 1), PageNumber(current),
       PageNumber(current + 1), Ellipsis, PageNumber(total)]
  }

  /** Up to seven pages every page is listed in order; with none or one the
      list is empty. */
  lemma PageListShort(total: int, current: int)
    requires total <= 7
    ensures total <= 1 ==> PageList(total, current) == []
    ensures total > 1 ==> |PageList(total, current)| == total
    ensures total > 1 ==> forall i :: 0 <= i < total ==> PageList(total, current)[i] == PageNumber(i + 1)
  {
  }

  /** Beyond seven pages the list has seven entries from page 1 to the last
      page, strictly increasing page numbers within [1, total], and it shows
      the current page when that page exists. */
  lemma PageListLong(total: int, current: int)
    requires total > 7
    ensures |PageList(total, current)| == 7
    ensures PageList(total, current)[0] == PageNumber(1)
    ensures PageList(total, current)[6] == PageNumber(total)
    ensures 1 <= current <= total ==> PageNumber(current) in PageList(total, current)
    ensures forall i, j ::
      (0 <= i < j < 7 && PageList(total, current)[i].PageNumber? && PageList(total, current)[j].PageNumber?) ==>
      1 <= PageList(total, current)[i].n < PageList(total, current)[j].n <= total
  {
    var r := PageList(total, current);
    if 1 <= current <= total {
      if current <= 3 {
        assert r[current - 1] == PageNumber(current);
      } else if current >= total - 2 {
        assert r[current - total + 6] == PageNumber(current);
      } else {
        assert r[3] == PageNumber(current);
      }
    }
  }

  // ---------------------------------------------------------------------
  // The selection set

  /** toggleProductSelection on the set of selected ids. */
  function FlipSelection(sel: set<string>, id: string): (r: set<string>)
    ensures id in r <==> id !in sel
    ensures forall other :: other != id ==> (other in r <==> other in sel)
  {
    if id in sel then sel - {id} else sel + {id}
  }

  /** Toggling the same id twice restores the selection. */
  lemma FlipSelectionTwice(sel: set<string>, id: string)
    ensures FlipSelection(FlipSelection(sel, id), id) == sel
  {
  }

  function PageIds(page: seq<Product>): set<string> {
    set p | p in page :: p.id
  }

  lemma PageIdsAppend(page: seq<Product>, x: Product)
    ensures PageIds(page + [x]) == PageIds(page) + {x.id}
  {
    assert forall p :: p in page + [x] <==> p in page || p == x;
  }

  /** Records with pairwise different ids. */
  predicate DistinctIds(page: seq<Product>) {
    forall i, j :: 0 <= i < j < |page| ==> page[i].id != page[j].id
  }

  /** With distinct ids a page has as many ids as records. */
  lemma {:induction false} PageIdsSize(page: seq<Product>)
    requires DistinctIds(page)
    ensures |PageIds(page)| == |page|
  {
    if page != [] {
      var prefix := page[..|page| - 1];
      var x := page[|page| - 1];
      assert page == prefix + [x];
      PageIdsAppend(prefix, x);
      assert DistinctIds(prefix) by {
        forall i, j | 0 <= i < j < |prefix| ensures prefix[i].id != prefix[j].id {
          assert prefix[i] == page[i] && prefix[j] == page[j];
        }
      }
      assert x.id !in PageIds(prefix);
      PageIdsSize(prefix);
    }
  }

  /** toggleSelectAll: clear when the selection has as many ids as the page
      has records, otherwise add the page's ids. It compares sizes, not
      contents. */
  function SelectAll(sel: set<string>, page: seq<Product>): (r: set<string>)
    ensures |sel| == |page| ==> r == {}
    ensures |sel| != |page| ==> PageIds(page) <= r && sel <= r && r <= sel + PageIds(page)
  {
    if |sel| == |page| then {} else sel + PageIds(page)
  }

  /** A proper subset has fewer elements. */
  lemma ProperSubsetSmaller(a: set<string>, b: set<string>)
    requires a <= b && a != b
    ensures |a| < |b|
  {
    assert !(b <= a);
    var x :| x in b && x !in a;
    assert b == a + (b - a);
    assert (b - a) * a == {};
    assert |b - a| >= 1 by { assert {x} <= b - a; }
  }

  /** For a selection made of the page's own ids, on a page whose ids are
      distinct, select-all clears exactly when every record of the page
      is selected, and otherwise selects exactly the page. */
  lemma SelectAllOnPage(sel: set<string>, page: seq<Product>)
    requires DistinctIds(page) && sel <= PageIds(page)
    ensures SelectAll(sel, page) == {} <==> sel == PageIds(page)
    ensures sel != PageIds(page) ==> SelectAll(sel, page) == PageIds(page)
  {
    PageIdsSize(page);
    if sel != PageIds(page) {
      ProperSubsetSmaller(sel, PageIds(page));
      if page != [] {
        assert page[0].id in PageIds(page);
      }
    }
  }

  /** A selection of the same size as the page but with other ids is still
      cleared. */
  lemma SelectAllComparesSizes()
    ensures var page := [Product("p1", "", "Runner", "", "Shoes", "", "Men", 100, 0, "Red", [], "", NoImages,
                                 false, false, false, 0)];
      SelectAll({"other"}, page) == {} && "other" !in PageIds(page)
  {
  }
}
