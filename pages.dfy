/** Page-level rules of the storefront (js/pages.js): the home-page
    counters and their retry counter, the navigation dispatch, the filter
    writes that jump to the products page, and the contact-form checks. */
module Pages {
  import opened ProductData
  import opened Seqs
  import opened Text
  import opened Validators
  import opened CatalogQuery
  import Catalog
  import Shell

  // ---------------------------------------------------------------------
  // Counters (updateCountersFromGoogleSheets)
  // ---------------------------------------------------------------------

  /** The records the counters read: the catalog's records when it has
      any, otherwise the preloaded ones. A missing catalog or a missing
      preload is the empty sequence. */
  function CounterSource(catalogProducts: seq<Product>, preloaded: seq<Product>): (r: seq<Product>)
    ensures r == [] <==> catalogProducts == [] && preloaded == []
    ensures r == catalogProducts || r == preloaded
  {
    if |catalogProducts| > 0 then catalogProducts else preloaded
  }

  /** The number of distinct `productId || id` values. */
  function ProductCount(products: seq<Product>): nat {
    |KeysOf(products, GroupKey)|
  }

  function BrandOf(p: Product): string {
    p.brand
  }

  /** A record with a truthy brand. */
  predicate HasBrand(p: Product) {
    p.brand != ""
  }

  /** The distinct truthy brands: `products.map(p => p.brand).filter(b => b)`
      put into a Set. */
  function Brands(products: seq<Product>): set<string> {
    KeysOf(Keep(products, HasBrand), BrandOf)
  }

  function BrandCount(products: seq<Product>): nat {
    |Brands(products)|
  }

  /** The product counter is the number of logical products the catalog
      shows one card for: the length of the first-per-group list. It never
      exceeds the number of records and is positive for any non-empty list. */
  lemma ProductCountIsGroups(products: seq<Product>)
    ensures ProductCount(products) == |FirstPerKey(products, GroupKey)|
    ensures ProductCount(products) <= |products|
    ensures products != [] ==> ProductCount(products) > 0
  {
    var u := FirstPerKey(products, GroupKey);
    FirstPerKeyKeys(products, GroupKey);
    FirstPerKeyDistinct(products, GroupKey);
    DistinctKeysCount(u, GroupKey);
    DistinctKeysCount(products, GroupKey);
    if products != [] {
      assert GroupKey(products[0]) in KeysOf(products, GroupKey);
    }
  }

  /** The brand counter never exceeds the number of records, and it is 0
      exactly when no record names a brand. */
  lemma BrandCountBounds(products: seq<Product>)
    ensures BrandCount(products) <= |products|
    ensures BrandCount(products) == 0 <==> forall i :: 0 <= i < |products| ==> products[i].brand == ""
  {
    var named := Keep(products, HasBrand);
    DistinctKeysCount(named, BrandOf);
    KeepMembers(products, HasBrand);
    if named != [] {
      assert BrandOf(named[0]) in Brands(products);
    }
  }

  /** The decimal digits of `n`, as `${n}` writes them. */
  function DecimalText(n: nat): (r: string)
    ensures r != []
    ensures forall i :: 0 <= i < |r| ==> IsDigit(r[i])
  {
    if n < 10 then [('0' as int + n) as char]
    else DecimalText(n / 10) + [('0' as int + n % 10) as char]
  }

  /** The number a string of decimal digits denotes. */
  function DigitsValue(s: string): nat
    requires forall i :: 0 <= i < |s| ==> IsDigit(s[i])
  {
    if s == [] then 0
    else
      assert IsDigit(s[|s| - 1]);
      DigitsValue(s[..|s| - 1]) * 10 + (s[|s| - 1] as int - '0' as int)
  }

  /** The counter text reads back as the number it was made from, without a
      leading zero, so different counts never show the same text. */
  lemma {:induction false} DecimalTextValue(n: nat)
    ensures DigitsValue(DecimalText(n)) == n
    ensures n >= 10 ==> DecimalText(n)[0] != '0'
    ensures |DecimalText(n)| == 1 <==> n < 10
  {
    if n >= 10 {
      var r := DecimalText(n);
      var prefix := DecimalText(n / 10);
      DecimalTextValue(n / 10);
      assert r[..|r| - 1] == prefix;
      assert r[0] == prefix[0];
    }
  }

  /** Different counts are written differently. */
  lemma DecimalTextInjective(m: nat, n: nat)
    ensures DecimalText(m) == DecimalText(n) <==> m == n
  {
    DecimalTextValue(m);
    DecimalTextValue(n);
  }

  /** The retry counter after one attempt that found no records: it counts
      up to 20 and then stays. */
  function NextRetry(count: nat): nat {
    if count < 20 then count + 1 else count
  }

  /** The retry counter after `k` attempts in a row that found no records,
      starting from the page's initial 0. */
  function RetriesAfter(k: nat): nat {
    if k == 0 then 0 else NextRetry(RetriesAfter(k - 1))
  }

  /** Twenty retries are scheduled (20 × 500 ms = 10 s); from the 21st
      empty attempt on, the fallback texts are shown. */
  lemma {:induction false} RetriesSaturate(k: nat)
    ensures RetriesAfter(k) == if k < 20 then k else 20
    ensures RetriesAfter(k) < 20 <==> k < 20
  {
    if k > 0 {
      RetriesSaturate(k - 1);
    }
  }

  /** The counter elements of the home page and `window.counterRetryCount`
      (undefined reads as 0). `retryScheduled` records that a timer will
      call the update again. */
  class HomeCounters {
    var retryCount: nat
    var productText: string
    var brandText: string
    var retryScheduled: bool

    constructor()
      ensures retryCount == 0 && productText == "" && brandText == "" && !retryScheduled
    {
      retryCount := 0;
      productText := "";
      brandText := "";
      retryScheduled := false;
    }

    /** updateCountersFromGoogleSheets. With records, both counters show
        their count followed by '+' and the retry counter is reset. Without
        records, a retry is scheduled while fewer than 20 have been made;
        after that the fallback texts '100+' and '5+' are shown. */
    method Update(catalogProducts: seq<Product>, preloaded: seq<Product>)
      modifies this
      ensures var src := CounterSource(catalogProducts, preloaded);
        src != [] ==>
          productText == DecimalText(ProductCount(src)) + "+"
          && brandText == DecimalText(BrandCount(src)) + "+"
          && retryCount == 0 && !retryScheduled
      ensures CounterSource(catalogProducts, preloaded) == [] && old(retryCount) < 20 ==>
        retryCount == old(retryCount) + 1 && retryScheduled
        && productText == old(productText) && brandText == old(brandText)
      ensures CounterSource(catalogProducts, preloaded) == [] && old(retryCount) >= 20 ==>
        retryCount == old(retryCount) && !retryScheduled
        && productText == "100+" && brandText == "5+"
      ensures CounterSource(catalogProducts, preloaded) == [] ==> retryCount == NextRetry(old(retryCount))
      ensures old(retryCount) <= 20 ==> retryCount <= 20
    {
      var products := CounterSource(catalogProducts, preloaded);
      if |products| > 0 {
        productText := DecimalText(ProductCount(products)) + "+";
        brandText := DecimalText(BrandCount(products)) + "+";
        retryCount := 0;
        retryScheduled := false;
      } else {
        var count := retryCount;
        if count < 20 {
          retryCount := count + 1;
          retryScheduled := true;
        } else {
          productText := "100+";
          brandText := "5+";
          retryScheduled := false;
        }
      }
    }
  }

  // ---------------------------------------------------------------------
  // Navigation (navigateTo)
  // ---------------------------------------------------------------------

  /** The three page renderers. */
  datatype Page = Home | Products | Contact

  /** The name a page is asked for by. */
  function PageName(p: Page): string {
    match p
    case Home => "home"
    case Products => "products"
    case Contact => "contact"
  }

  /** The renderer the `switch` picks: any name other than 'products' and
      'contact' renders the home page. */
  function PageFor(name: string): (p: Page)
    ensures p == Home <==> name != "products" && name != "contact"
  {
    if name == "products" then Products
    else if name == "contact" then Contact
    else Home
  }

  /** Every page is reached by its own name, and only by it unless it is
      the home page. */
  lemma PageForName(p: Page, name: string)
    ensures PageFor(PageName(p)) == p
    ensures p != Home ==> (PageFor(name) == p <==> name == PageName(p))
  {
  }

  /** The visible page: the navigation link marked active and the renderer
      that last filled the main content. */
  class Site {
    var activeNav: string
    var rendered: Page

    constructor()
      ensures activeNav == "home" && rendered == Home
    {
      activeNav := "home";
      rendered := Home;
    }

    /** navigateTo. Without the main-content element nothing happens;
        otherwise the link named `page` becomes active, the navbar (when
        it has been set up) takes `page` and restyles for the scroll
        position, and the renderer `PageFor(page)` runs. The products page
        initializes the catalog (when there is one) with the preloaded
        records, or with the answer `fetched` of fetchProducts when none
        are preloaded. */
    method NavigateTo(page: string, hasMainContent: bool, header: Shell.Header?, scroll: int,
      catalog: Catalog.ProductCatalog?, preloaded: seq<Product>, fetched: seq<Product>)
      modifies this, header, catalog
      ensures !hasMainContent ==> activeNav == old(activeNav) && rendered == old(rendered)
      ensures hasMainContent ==> activeNav == page && rendered == PageFor(page)
      ensures header != null && hasMainContent ==>
        header.currentPage == page
        && header.style == Shell.NavbarStyle(page, scroll, header.megaMenuOpen)
      ensures header != null && !hasMainContent ==>
        header.currentPage == old(header.currentPage) && header.style == old(header.style)
      ensures catalog != null && hasMainContent && PageFor(page) == Products ==>
        var loaded := Catalog.LoadedRecords(preloaded, fetched);
        catalog.allProducts == loaded && !catalog.isLoading && catalog.filters == old(catalog.filters)
        && (loaded != [] ==>
              Catalog.GroupsOf(catalog.productGroups, loaded)
              && catalog.filteredProducts == ApplyFiltersResult(loaded, catalog.filters)
              && catalog.currentPage == 1 && catalog.selectedProducts == {})
        && (loaded == [] ==> catalog.productGroups == old(catalog.productGroups))
      ensures catalog != null && !(hasMainContent && PageFor(page) == Products) ==>
        catalog.allProducts == old(catalog.allProducts) && catalog.filteredProducts == old(catalog.filteredProducts)
        && catalog.filters == old(catalog.filters) && catalog.productGroups == old(catalog.productGroups)
        && catalog.currentPage == old(catalog.currentPage) && catalog.selectedProducts == old(catalog.selectedProducts)
        && catalog.isLoading == old(catalog.isLoading)
    {
      if !hasMainContent {
        return;
      }
      activeNav := page;
      if header != null {
        header.UpdateForPage(page, scroll);
      }
      rendered := PageFor(page);
      if rendered == Products && catalog != null {
        var _ := catalog.Initialize(Catalog.LoadedRecords(preloaded, fetched));
      }
    }

    /** filterAndNavigate: go to the products page, then (once the timer
        fires) clear the catalog's filters, write each entry of `filters`
        in order, and re-filter. Without a catalog only the navigation
        happens. */
    method FilterAndNavigate(filters: seq<FilterEntry>, catalog: Catalog.ProductCatalog?,
      hasMainContent: bool, header: Shell.Header?, scroll: int, preloaded: seq<Product>, fetched: seq<Product>)
      modifies this, catalog, header
      ensures hasMainContent ==> activeNav == "products" && rendered == Products
      ensures !hasMainContent ==> activeNav == old(activeNav) && rendered == old(rendered)
      ensures catalog != null ==>
        catalog.filters == Written(DefaultFilters, filters)
        && catalog.allProducts
          == (if hasMainContent then Catalog.LoadedRecords(preloaded, fetched) else old(catalog.allProducts))
        && catalog.filteredProducts == ApplyFiltersResult(catalog.allProducts, catalog.filters)
        && catalog.currentPage == 1 && catalog.selectedProducts == {}
      ensures catalog != null && !hasMainContent ==>
        catalog.productGroups == old(catalog.productGroups) && catalog.isLoading == old(catalog.isLoading)
      ensures catalog != null && hasMainContent ==>
        var loaded := Catalog.LoadedRecords(preloaded, fetched);
        !catalog.isLoading
        && (loaded != [] ==>
              Catalog.GroupsOf(catalog.productGroups, loaded))
        && (loaded == [] ==> catalog.productGroups == old(catalog.productGroups))
    {
      NavigateTo("products", hasMainContent, header, scroll, catalog, preloaded, fetched);
      if catalog == null {
        return;
      }
      ghost var loaded := catalog.allProducts;
      ghost var groups, loading := catalog.productGroups, catalog.isLoading;
      catalog.ClearFilters();
      var i := 0;
      while i < |filters|
        invariant 0 <= i <= |filters|
        invariant catalog.filters == Written(DefaultFilters, filters[..i])
        invariant catalog.allProducts == loaded
        invariant catalog.productGroups == groups && catalog.isLoading == loading
        modifies catalog
      {
        assert filters[..i + 1][..i] == filters[..i];
        catalog.filters := Write(catalog.filters, filters[i]);
        i := i + 1;
      }
      assert filters[..i] == filters;
      catalog.ApplyFilters();
    }

    /** filterProducts: the menu's category, gender and subcategory, each
        written only when given. */
    method FilterProducts(category: string, gender: string, subcategory: string,
      catalog: Catalog.ProductCatalog?, hasMainContent: bool, header: Shell.Header?, scroll: int,
      preloaded: seq<Product>, fetched: seq<Product>)
      modifies this, catalog, header
      ensures hasMainContent ==> rendered == Products
      ensures catalog != null ==>
        catalog.filters == DefaultFilters.(
          category := if category != "" then [category] else [],
          gender := if gender != "" then [gender] else [],
          subcategory := if subcategory != "" then [subcategory] else [])
        && catalog.filteredProducts == ApplyFiltersResult(catalog.allProducts, catalog.filters)
    {
      MenuFiltersResult(category, gender, subcategory);
      FilterAndNavigate(MenuFilters(category, gender, subcategory), catalog, hasMainContent, header, scroll,
        preloaded, fetched);
    }

    /** filterCategoryCard: the fixed filters of home-page card `index`. */
    method FilterCategoryCard(index: int, catalog: Catalog.ProductCatalog?, hasMainContent: bool,
      header: Shell.Header?, scroll: int, preloaded: seq<Product>, fetched: seq<Product>)
      modifies this, catalog, header
      ensures hasMainContent ==> rendered == Products
      ensures catalog != null ==>
        catalog.filters == CardResult(index)
        && catalog.filteredProducts == ApplyFiltersResult(catalog.allProducts, catalog.filters)
    {
      CardFiltersResult(index);
      FilterAndNavigate(CardFilters(index), catalog, hasMainContent, header, scroll, preloaded, fetched);
    }
  }

  // ---------------------------------------------------------------------
  // Filter writes (filterAndNavigate, filterProducts, filterCategoryCard)
  // ---------------------------------------------------------------------

  /** One key of the object handed to filterAndNavigate, with its value:
      a boolean flag, an array dimension (whose value becomes a one-element
      list) or the sort key. */
  datatype FilterEntry =
    | FlagEntry(fl: Flag, b: bool)
    | ListEntry(d: Dimension, v: string)
    | SortEntry(sortBy: string)

  /** The filter field a key names. */
  datatype Field = FlagField(fl: Flag) | ListField(d: Dimension) | SortField

  function FieldOf(e: FilterEntry): Field {
    match e
    case FlagEntry(fl, _) => FlagField(fl)
    case ListEntry(d, _) => ListField(d)
    case SortEntry(_) => SortField
  }

  /** The keys of an object are distinct. */
  predicate DistinctFields(es: seq<FilterEntry>) {
    forall i, j :: 0 <= i < j < |es| ==> FieldOf(es[i]) != FieldOf(es[j])
  }

  /** `g` holds what entry `e` asks for. */
  predicate Shows(g: Filters, e: FilterEntry) {
    match e
    case FlagEntry(fl, b) => FlagValue(g, fl) == b
    case ListEntry(d, v) => Values(g, d) == [v]
    case SortEntry(s) => g.sortBy == s
  }

  /** `f` and `g` agree on one field. */
  predicate SameField(f: Filters, g: Filters, fld: Field) {
    match fld
    case FlagField(fl) => FlagValue(f, fl) == FlagValue(g, fl)
    case ListField(d) => Values(f, d) == Values(g, d)
    case SortField => f.sortBy == g.sortBy
  }

  /** The body of the `forEach`: a flag takes the value, an array dimension
      becomes `[value]`, the sort key is assigned. */
  function Write(f: Filters, e: FilterEntry): (g: Filters)
    ensures Shows(g, e)
    ensures forall fld :: fld != FieldOf(e) ==> SameField(g, f, fld)
    ensures g.priceMin == f.priceMin && g.priceMax == f.priceMax
  {
    match e
    case FlagEntry(fl, b) => WithFlag(f, fl, b)
    case ListEntry(d, v) => WithValues(f, d, [v])
    case SortEntry(s) => f.(sortBy := s)
  }

  /** The filter state after writing the entries in order. */
  function Written(f: Filters, es: seq<FilterEntry>): (g: Filters)
    ensures g.priceMin == f.priceMin && g.priceMax == f.priceMax
    decreases |es|
  {
    if es == [] then f else Write(Written(f, es[..|es| - 1]), es[|es| - 1])
  }

  /** Whether a state shows an entry depends only on the entry's field. */
  lemma ShowsOnlyField(g: Filters, h: Filters, e: FilterEntry)
    requires SameField(g, h, FieldOf(e))
    ensures Shows(g, e) <==> Shows(h, e)
  {
  }

  /** No entry after position `i` names the field of entry `i`. */
  predicate LastOfField(es: seq<FilterEntry>, i: int)
    requires 0 <= i < |es|
  {
    forall j :: i < j < |es| ==> FieldOf(es[j]) != FieldOf(es[i])
  }

  /** Later writes win: the state shows the last entry of every field
      that is named. */
  lemma {:induction false} WrittenShowsLast(f: Filters, es: seq<FilterEntry>, i: int)
    requires 0 <= i < |es| && LastOfField(es, i)
    ensures Shows(Written(f, es), es[i])
    decreases |es|
  {
    var init, e := es[..|es| - 1], es[|es| - 1];
    if i < |es| - 1 {
      var g := Written(f, init);
      assert es[i] == init[i];
      assert LastOfField(init, i) by {
        forall j | i < j < |init|
          ensures FieldOf(init[j]) != FieldOf(init[i])
        {
          assert init[j] == es[j];
        }
      }
      WrittenShowsLast(f, init, i);
      assert FieldOf(e) != FieldOf(es[i]);
      ShowsOnlyField(Write(g, e), g, es[i]);
    }
  }

  /** A field no entry names keeps its starting value. */
  lemma {:induction false} WrittenKeepsUnnamed(f: Filters, es: seq<FilterEntry>, fld: Field)
    requires forall i :: 0 <= i < |es| ==> FieldOf(es[i]) != fld
    ensures SameField(Written(f, es), f, fld)
    decreases |es|
  {
    if es != [] {
      var init := es[..|es| - 1];
      assert forall i :: 0 <= i < |init| ==> init[i] == es[i];
      WrittenKeepsUnnamed(f, init, fld);
      assert FieldOf(es[|es| - 1]) != fld;
    }
  }

  /** filterAndNavigate's writes, for an object (distinct keys): each
      named flag equals its value, each named array dimension is the
      one-element list of its value, the sort key is the given one, and
      every field not named keeps its clearFilters default. No entry names
      the price range, so it keeps its default. */
  lemma FilterWritesFromDefault(es: seq<FilterEntry>)
    requires DistinctFields(es)
    ensures forall i :: 0 <= i < |es| ==> Shows(Written(DefaultFilters, es), es[i])
    ensures forall fld :: (forall i :: 0 <= i < |es| ==> FieldOf(es[i]) != fld) ==>
      SameField(Written(DefaultFilters, es), DefaultFilters, fld)
    ensures Written(DefaultFilters, es).priceMin == DefaultFilters.priceMin
    ensures Written(DefaultFilters, es).priceMax == DefaultFilters.priceMax
  {
    forall i | 0 <= i < |es|
      ensures Shows(Written(DefaultFilters, es), es[i])
    {
      WrittenShowsLast(DefaultFilters, es, i);
    }
    forall fld | forall i :: 0 <= i < |es| ==> FieldOf(es[i]) != fld
      ensures SameField(Written(DefaultFilters, es), DefaultFilters, fld)
    {
      WrittenKeepsUnnamed(DefaultFilters, es, fld);
    }
  }

  /** The object filterProducts builds: each truthy argument under its
      own key, in the order category, gender, subcategory. */
  function MenuFilters(category: string, gender: string, subcategory: string): (r: seq<FilterEntry>)
    ensures DistinctFields(r)
    ensures ListEntry(Category, category) in r <==> category != ""
    ensures ListEntry(Gender, gender) in r <==> gender != ""
    ensures ListEntry(Subcategory, subcategory) in r <==> subcategory != ""
    ensures forall e :: e in r ==>
      e == ListEntry(Category, category) || e == ListEntry(Gender, gender) || e == ListEntry(Subcategory, subcategory)
  {
    (if category != "" then [ListEntry(Category, category)] else [])
    + (if gender != "" then [ListEntry(Gender, gender)] else [])
    + (if subcategory != "" then [ListEntry(Subcategory, subcategory)] else [])
  }

  /** The list for one optional argument. */
  function Given(s: string): seq<string> {
    if s != "" then [s] else []
  }

  /** Writing one more entry, when there is one. */
  lemma WrittenThen(f: Filters, es: seq<FilterEntry>, c: bool, e: FilterEntry)
    ensures Written(f, es + (if c then [e] else [])) == if c then Write(Written(f, es), e) else Written(f, es)
  {
    if c {
      assert (es + [e])[..|es|] == es;
    } else {
      assert es + [] == es;
    }
  }

  /** Writing filterProducts' object over the defaults sets exactly the
      given dimensions and nothing else. */
  lemma MenuFiltersResult(category: string, gender: string, subcategory: string)
    ensures Written(DefaultFilters, MenuFilters(category, gender, subcategory))
      == DefaultFilters.(category := Given(category), gender := Given(gender), subcategory := Given(subcategory))
  {
    var a: seq<FilterEntry> := if category != "" then [ListEntry(Category, category)] else [];
    var b: seq<FilterEntry> := if gender != "" then [ListEntry(Gender, gender)] else [];
    WrittenThen(DefaultFilters, [], category != "", ListEntry(Category, category));
    assert [] + a == a;
    var f1 := DefaultFilters.(category := Given(category));
    assert Written(DefaultFilters, a) == f1;
    WrittenThen(DefaultFilters, a, gender != "", ListEntry(Gender, gender));
    var f2 := f1.(gender := Given(gender));
    assert Written(DefaultFilters, a + b) == f2;
    WrittenThen(DefaultFilters, a + b, subcategory != "", ListEntry(Subcategory, subcategory));
  }

  /** The home page's four category cards; any other index is `{}`. */
  function CardFilters(index: int): (r: seq<FilterEntry>)
    ensures DistinctFields(r)
    ensures r == [] <==> !(0 <= index < 4)
  {
    if index == 0 then [ListEntry(Category, "Shoes"), ListEntry(Gender, "Men")]
    else if index == 1 then [ListEntry(Category, "Shoes"), ListEntry(Gender, "Women")]
    else if index == 2 then [ListEntry(Category, "Apparel")]
    else if index == 3 then [ListEntry(Category, "Accessories")]
    else []
  }

  /** The filter state each card leads to. */
  function CardResult(index: int): Filters {
    if index == 0 then DefaultFilters.(category := ["Shoes"], gender := ["Men"])
    else if index == 1 then DefaultFilters.(category := ["Shoes"], gender := ["Women"])
    else if index == 2 then DefaultFilters.(category := ["Apparel"])
    else if index == 3 then DefaultFilters.(category := ["Accessories"])
    else DefaultFilters
  }

  /** A card's filters written over the defaults give its state; an index
      outside 0..3 leaves the defaults (every filter cleared). */
  lemma CardFiltersResult(index: int)
    ensures Written(DefaultFilters, CardFilters(index)) == CardResult(index)
    ensures !(0 <= index < 4) ==> CardResult(index) == DefaultFilters
  {
    var es := CardFilters(index);
    if index == 0 || index == 1 {
      assert es[..1] == [es[0]];
      assert es[..1][..0] == [];
      assert Written(DefaultFilters, es[..1]) == Write(DefaultFilters, es[0]);
    } else if index == 2 || index == 3 {
      assert es[..0] == [];
    }
  }

  // ---------------------------------------------------------------------
  // Contact form (handleContactFormSubmit)
  // ---------------------------------------------------------------------

  /** The five inputs of the contact form, as typed. */
  datatype ContactForm = ContactForm(name: string, email: string, phone: string, subject: string, message: string)

  /** The inputs whose error message can be shown. */
  datatype ContactField = NameField | EmailField | PhoneField | SubjectField | MessageField

  /** The values the handler works on: every input trimmed. */
  function Trimmed(form: ContactForm): ContactForm {
    ContactForm(Trim(form.name), Trim(form.email), Trim(form.phone), Trim(form.subject), Trim(form.message))
  }

  /** The check of one (trimmed) input, including its emptiness guard. */
  predicate FieldFails(t: ContactForm, fld: ContactField) {
    match fld
    case NameField => t.name == "" || |t.name| < 2
    case EmailField => t.email == "" || !ValidateEmail(t.email)
    case PhoneField => t.phone == "" || !ValidatePhone(t.phone)
    case SubjectField => t.subject == "" || |t.subject| < 3
    case MessageField => t.message == "" || |t.message| < 10
  }

  /** The inputs that get an error message. */
  function ContactErrors(t: ContactForm): set<ContactField> {
    (if FieldFails(t, NameField) then {NameField} else {})
    + (if FieldFails(t, EmailField) then {EmailField} else {})
    + (if FieldFails(t, PhoneField) then {PhoneField} else {})
    + (if FieldFails(t, SubjectField) then {SubjectField} else {})
    + (if FieldFails(t, MessageField) then {MessageField} else {})
  }

  /** The form may be sent: a name of at least 2 characters, a valid email,
      a valid phone, a subject of at least 3 and a message of at least 10
      characters. */
  predicate ContactAccepted(t: ContactForm) {
    |t.name| >= 2 && ValidateEmail(t.email) && ValidatePhone(t.phone)
    && |t.subject| >= 3 && |t.message| >= 10
  }

  /** No field fails exactly when the form is accepted; the emptiness
      guards add nothing to the length and format checks. */
  lemma ContactErrorsEmpty(t: ContactForm)
    ensures ContactErrors(t) == {} <==> ContactAccepted(t)
  {
    if !ContactAccepted(t) {
      assert FieldFails(t, NameField) || FieldFails(t, EmailField) || FieldFails(t, PhoneField)
        || FieldFails(t, SubjectField) || FieldFails(t, MessageField);
    }
  }

  /** The form is accepted exactly when none of the five checks fails. */
  lemma ContactAcceptedNoFailure(t: ContactForm)
    ensures ContactAccepted(t) <==>
      !FieldFails(t, NameField) && !FieldFails(t, EmailField) && !FieldFails(t, PhoneField)
      && !FieldFails(t, SubjectField) && !FieldFails(t, MessageField)
  {
  }

  /** An accepted form carries a phone of at least 10 characters and an
      email of at least 5 ("a@b.c"). */
  lemma ContactAcceptedLengths(t: ContactForm)
    requires ContactAccepted(t)
    ensures |t.phone| >= 10 && |t.email| >= 5
  {
    ValidatePhoneDigits(t.phone);
    var i, j :| 0 < i < j < |t.email| && EmailMatchAt(t.email, i, j);
  }

  /** One check of handleContactFormSubmit: when it fails, the input's
      error is shown and `hasError` is set. */
  method Mark(errors: set<ContactField>, hasError: bool, fails: bool, fld: ContactField)
    returns (errors': set<ContactField>, hasError': bool)
    ensures errors' == errors + (if fails then {fld} else {})
    ensures hasError' <==> hasError || fails
  {
    errors', hasError' := errors, hasError;
    if fails {
      errors' := errors' + {fld};
      hasError' := true;
    }
  }

  /** The five checks of handleContactFormSubmit on the trimmed inputs,
      in order, accumulating the shown errors and `hasError`. */
  method CheckFields(t: ContactForm) returns (errors: set<ContactField>, hasError: bool)
    ensures errors == ContactErrors(t)
    ensures hasError <==> !ContactAccepted(t)
  {
    errors, hasError := {}, false;
    errors, hasError := Mark(errors, hasError, FieldFails(t, NameField), NameField);
    errors, hasError := Mark(errors, hasError, FieldFails(t, EmailField), EmailField);
    errors, hasError := Mark(errors, hasError, FieldFails(t, PhoneField), PhoneField);
    errors, hasError := Mark(errors, hasError, FieldFails(t, SubjectField), SubjectField);
    errors, hasError := Mark(errors, hasError, FieldFails(t, MessageField), MessageField);
    ContactAcceptedNoFailure(t);
  }

  /** The validation part of handleContactFormSubmit: the inputs are
      trimmed and checked; the form is submitted, with the trimmed values,
      only when no check failed. */
  method CheckContactForm(form: ContactForm) returns (errors: set<ContactField>, hasError: bool, sent: Option<ContactForm>)
    ensures errors == ContactErrors(Trimmed(form))
    ensures hasError <==> !ContactAccepted(Trimmed(form))
    ensures sent == if hasError then None else Some(Trimmed(form))
  {
    var t := Trimmed(form);
    errors, hasError := CheckFields(t);
    if hasError {
      sent := None;
      return;
    }
    sent := Some(t);
  }
}
