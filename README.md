# KiksNiks storefront core, modelled in Dafny

KiksNiks is a single-page shoe and apparel storefront written in browser
JavaScript. This project models the logic behind its pages:

- the product catalog (`ProductCatalog` in `js/products.js`), which covers:
  - grouping colour variations under one product;
  - the filter chain, the deduplication policy and the sort orders;
  - pagination, selection and the filter setters;
- the shopping cart (`ShoppingCart` in `js/cart.js`), whose lines are stored in
  local storage;
- the product modal (`js/modal.js`): variations, image lists, image navigation,
  size choice and add-to-bag;
- the info modal (`js/modal-info.js`): its four pages, the body scroll lock,
  the Escape handler, the FAQ search and the FAQ accordion;
- page navigation and the home page (`js/pages.js`):
  - the product and brand counters;
  - the filter-and-navigate entry points;
  - the contact-form checks;
- the site shell (`js/main.js`): the header's look on scroll, the hero slider and
  the mega menus built from the catalog;
- the Google Sheets backend (`js/googleSheets.js`): the JSON formats the product
  list is accepted in, the retry schedule, the mock catalog and the three form
  submissions;
- the validators of `js/utils.js`: e-mail, phone and quote escaping.

Pure logic is written as functions with lemmas about them. Objects that
update their own fields are written as classes:

- `ShoppingCart`;
- `ProductCatalog`;
- the product modal's global record;
- the info window;
- the FAQ panel;
- the header;
- the hero slider;
- the home counters;
- the site's visible page.

Each class method is proved against a specification function of the old state.
Loops in the source become `while` loops with invariants:

- grouping and deduplication;
- the filter chain;
- the reductions of `getTotal` and `getItemCount`;
- the mega-menu construction and its sorting;
- the FAQ loops;
- the Escape listeners that one keydown runs.

The contact-form checks are sequential in the source and stay straight-line
code.

The constant `CONFIG.ITEMS_PER_PAGE = 6` comes from `js/config.js`.

Modules, one per file:

- `ProductData`: the product record and the filter state.
- `Text`: trimming, lower-casing, substring search, splitting and code-point
  order.
- `Seqs`: filtering, key sets, first-per-key and sorting.
- `CatalogFilters`, `CatalogDedup`, `CatalogQuery`, `CatalogPages`: the
  catalog's specification.
- `Catalog`: the catalog class.
- `Cart`, `Validators`, `ProductModal`, `InfoModal`, `Pages`, `Shell`, `Sheets`.

Behaviour of the source that the model makes explicit:

- **Retry schedule.** `fetchProducts` retries after 1000·(n+1) ms. The delays are
  linear, not exponential. With the default limit of 3 it makes three requests,
  waits 1 s and then 2 s, and falls back to the mock catalog with a single error
  toast (`Sheets.DefaultScheduleAllFail`).
- **Empty data array.** A successful envelope with an empty `data` array is
  rejected as "no products", even when the same body also carries a non-empty
  `products` array (`Sheets.EmptyEnvelopeHidesProducts`). A `products` array
  wins over `success: false` (`Sheets.FailureFlag`).
- **Mock catalog is ungrouped.** Mock records have an empty `productId`, so each
  of the 102 records is its own group. The catalog shows 102 products, not 17
  products in 6 colours (`Sheets.MockRecordsUngrouped`).
- **Cart line ids.** A cart line id is the variation id and the size joined by
  `-`. No size and the size `"default"` share a line, and ids that contain `-`
  can collide (`Cart.LineKeyAmbiguous`).
- **Modal ignores sizes.** The product modal's variation filter tests every
  catalog filter except sizes. It can offer a variation whose sizes the shopper
  excluded (`ProductModal.VariationFilterSizeGap`).
- **Image parsers disagree.** `openProductModal` drops empty image pieces and
  falls back to the main image. `changeModalVariation` keeps empty pieces and
  has no fallback (`ProductModal.ImageParsersDisagree`).
- **Empty page count.** `getTotalPages` is 0 for an empty list
  (`Catalog.ProductCatalog.TotalPageCount`).
- **Select all.** `toggleSelectAll` clears the selection whenever it has as many
  ids as the page has records, whichever ids they are
  (`CatalogPages.SelectAllComparesSizes`).
- **Reopened info modal.** Opening an info page while one is open attaches a
  second Escape listener. Closing detaches only the last one, so one listener
  stays attached (`InfoModal.ReopenLeavesListener`). After three opens the two
  stale listeners both run on Escape, and the second close scrolls the window
  to the top (`InfoModal.EscapeAfterThreeOpens`).
- **Filter toggled twice.** `setFilter` applied twice to a value that was
  present restores the list's contents, but can reorder it
  (`CatalogFilters.ToggleTwiceReorders`).

## Model

| member | source | states |
|---|---|---|
| ProductData.WithValues | js/products.js:294-308 | Setting one filter list changes that list only; the other lists, the flags, the price range and the sort key stay. |
| ProductData.WithFlag | js/pages.js:125-144 | Setting one flag changes that flag only; every list, the price range and the sort key stay. |
| ProductData.FiltersEqual | js/products.js:12-21 | Two filter states that agree on every list, flag, bound and sort key are the same state. |
| CatalogFilters.StepFilterMembers | js/products.js:161-219 | One `filter` call keeps a record exactly when it is in the input and its callback accepts it. |
| CatalogFilters.FilteredSteps | js/products.js:161-219 | The eleven guarded steps, applied in source order, produce the chain's result. |
| CatalogFilters.StepMembers | js/products.js:161-219 | A guarded step keeps a record exactly when it is in the input and, if the step's guard is on, accepted by its callback. |
| CatalogFilters.StepMembersAll | js/products.js:161-219 | The same, for every record at once. |
| CatalogFilters.SatisfiesEveryStep | js/products.js:161-219 | Satisfying the filters means getting past every one of the eleven steps. |
| CatalogFilters.FourStepsMembers | js/products.js:161-219 | Membership after four consecutive steps is membership in the input plus passing each of the four. |
| CatalogFilters.FilteredMembers | js/products.js:161-219 | A record survives the filter chain exactly when it is in the input and satisfies every active filter. |
| CatalogFilters.AllDimensionsListed | js/products.js:310-329 | Every array dimension of the filter state is listed among the six that clearFilters resets. |
| CatalogFilters.Toggle | js/products.js:294-308 | An absent value is appended; a present value loses one occurrence and nothing else (as a multiset). |
| CatalogFilters.ToggleFlips | js/products.js:294-308 | On a list without duplicates, setFilter flips the value's membership, leaves every other value and keeps the list duplicate-free. |
| CatalogFilters.ToggleRemoves | js/products.js:294-308 | Splicing out the only copy of a value removes it and keeps every other value. |
| CatalogFilters.ToggleTwiceAbsent | js/products.js:294-308 | Toggling an absent value twice gives back the same list. |
| CatalogFilters.ToggleTwicePresent | js/products.js:294-308 | Toggling a present value twice keeps the multiset and moves the value to the end. |
| CatalogFilters.ToggleTwiceReorders | js/products.js:294-308 | A concrete list that is reordered by a double toggle. |
| CatalogFilters.RemoveValue | js/products.js:492-501 | removeFilter on one list: the value is gone and every other value stays. |
| CatalogFilters.RemoveValueFront | js/products.js:492-501 | Removal goes through the list from the front, keeping each other value in place, so the remaining values keep their order and repeats. |
| CatalogFilters.RemoveValueAbsent | js/products.js:492-501 | A list without the value is returned unchanged. |
| CatalogFilters.RemoveEverywhere | js/products.js:492-501 | removeFilter drops the value from every list and leaves the price range, the sort key and the flags. |
| CatalogDedup.GroupOfMembers | js/products.js:75-87 | A group holds exactly the records whose `productId \|\| id` is its key. |
| CatalogDedup.GroupOfAppend | js/products.js:75-87 | A new record is appended to its own group and to no other. |
| CatalogDedup.GroupOrderFacts | js/products.js:113-153 | The Map's key order lists every group key of the input exactly once. |
| CatalogDedup.DedupGroupMembers | js/products.js:140-148 | The cards of a group are input records of that group. |
| CatalogDedup.DedupGroupDistinct | js/products.js:140-148 | No two cards of a group share a colour. |
| CatalogDedup.DedupGroupFirst | js/products.js:140-148 | Each card is its group's first record of that colour. |
| CatalogDedup.DedupGroupCovers | js/products.js:140-148 | Every colour of the group has a card. |
| CatalogDedup.ConcatGroupsMembers | js/products.js:113-153 | The concatenated cards are input records of the listed groups. |
| CatalogDedup.ConcatGroupsDistinct | js/products.js:113-153 | No two concatenated cards share a group and a colour. |
| CatalogDedup.ConcatGroupsFirst | js/products.js:113-153 | Each concatenated card is the first record of its colour in its group. |
| CatalogDedup.ConcatGroupsCovers | js/products.js:113-153 | Every (group, colour) pair of the listed groups has a card. |
| CatalogDedup.SmartDedupMembers | js/products.js:113-153 | smartDeduplicateVariations keeps only input records. |
| CatalogDedup.SmartDedupDistinct | js/products.js:113-153 | It never shows two cards of the same group and colour. |
| CatalogDedup.SmartDedupCovers | js/products.js:113-153 | It shows a card for exactly the (group, colour) pairs of its input. |
| CatalogDedup.SmartDedupFirst | js/products.js:113-153 | Each card is the first record of its colour within its group. |
| CatalogDedup.SmartDedupKeepsSingletons | js/products.js:113-153 | A record alone in its group always gets a card. |
| CatalogDedup.UniqueByGroupFacts | js/products.js:101-111 | getUniqueProductsFromArray keeps input records, one per group, every group represented, each the group's first record, in order of first appearance. |
| CatalogQuery.ApplySort | js/products.js:253-287 | Every sort is a permutation of its input. |
| CatalogQuery.PriceSortsOrdered | js/products.js:254-259 | `price-asc` gives non-decreasing prices and `price-desc` non-increasing ones. |
| CatalogQuery.NewestSortOrdered | js/products.js:263-271 | `newest` puts later dates first. |
| CatalogQuery.NameSortOrdered | js/products.js:260-262 | `name-asc` orders names by code points. |
| CatalogQuery.FeaturedSortPartition | js/products.js:272-279 | `featured` puts featured records first and keeps the input order inside both parts. |
| CatalogQuery.BestSellerSortPartition | js/products.js:280-287 | `best-sellers` puts best sellers first and keeps the input order inside both parts. |
| CatalogQuery.ApplyFiltersSound | js/products.js:155-292 | Every card applyFilters shows is a catalog record that satisfies every active filter. |
| CatalogQuery.ApplyFiltersComplete | js/products.js:155-292 | Every group with a record that satisfies every active filter has a card; with a size or colour filter, every (group, colour) pair of such records has one. |
| CatalogQuery.ApplyFiltersUnique | js/products.js:224-251 | Without a size or colour filter no two cards share a group; with one, no two share a group and a colour. |
| CatalogPages.TotalPages | js/products.js:393-395 | The ceiling of n/6: enough pages for every record, no page wasted, and 0 exactly for an empty list. |
| CatalogPages.SliceBound | js/products.js:387-391 | `slice` indices are clamped into the list and are unchanged when already inside it. |
| CatalogPages.PageItemsWithin | js/products.js:387-391 | Any page number, even out of range, gives at most six records of the list. |
| CatalogPages.PageBounds | js/products.js:387-391 | Pages 1 to the last are the slice [(p-1)·6, min(p·6, n)), non-empty and at most six long. |
| CatalogPages.PagesUpToPrefix | js/products.js:387-391 | The first k pages laid end to end are the list's prefix of length min(6k, n). |
| CatalogPages.PagesPartition | js/products.js:387-395 | All the pages laid end to end are exactly the list, and pages past the last are empty. |
| CatalogPages.PageListShort | js/products.js:644-658 | With up to seven pages every page is listed in order; with one page or none nothing is shown. |
| CatalogPages.PageListLong | js/products.js:644-658 | With more than seven pages the list has seven entries, starts at page 1, ends at the last page, includes the current page, and numbers increase. |
| CatalogPages.FlipSelection | js/products.js:348-355 | The id's membership flips and no other id changes. |
| CatalogPages.FlipSelectionTwice | js/products.js:348-355 | Toggling an id twice restores the selection. |
| CatalogPages.PageIdsAppend | js/products.js:357-365 | The page's ids grow by the new record's id. |
| CatalogPages.SelectAll | js/products.js:357-365 | A selection as large as the page is cleared; otherwise the result holds every id of the page and every id already selected, and nothing else. |
| CatalogPages.PageIdsSize | js/products.js:357-365 | A page whose records have distinct ids has as many ids as records, so the size test counts the page's ids. |
| CatalogPages.ProperSubsetSmaller | js/products.js:357-365 | A selection that misses some of the page's ids is smaller than the page's ids. |
| CatalogPages.SelectAllOnPage | js/products.js:357-365 | With distinct ids and a selection drawn from the page, select-all clears exactly when the whole page is selected, and otherwise selects exactly the page. |
| CatalogPages.SelectAllComparesSizes | js/products.js:357-365 | A selection with other ids but the same size as the page is cleared. |
| Catalog.GroupOfMissing | js/products.js:75-87 | A key that no record carries has an empty group. |
| Catalog.AddToGroupStep | js/products.js:75-87 | One forEach step keeps the map equal to the grouping of the records seen so far. |
| Catalog.PushToGroup | js/products.js:81-84 | Creates the group's array when it is missing, then pushes the record. |
| Catalog.GroupProductsByID | js/products.js:75-87 | One group per key of the input, each holding that key's records in order; every record is in its own group and in no other. |
| Catalog.GetUniqueProductsFromArray | js/products.js:101-111 | The first record of each group, in order of first appearance. |
| Catalog.DedupByColor | js/products.js:140-148 | The first record of each colour, in order of first appearance. |
| Catalog.GroupStep | js/products.js:113-139 | One grouping iteration keeps the Map's key order and contents. |
| Catalog.GroupInOrder | js/products.js:113-139 | The grouping loop yields the keys in order of first appearance and every group's records. |
| Catalog.AddRecord | js/products.js:113-139 | A new key is appended to the key order; the record is pushed onto its group. |
| Catalog.GroupOrderAppend | js/products.js:113-139 | A record with a new key extends the key order; any other record leaves it. |
| Catalog.SmartDeduplicateVariations | js/products.js:113-153 | Computes the smart deduplication (see the CatalogDedup lemmas for its meaning). |
| Catalog.FilterChain | js/products.js:161-219 | The guarded filter calls compute the filter chain. |
| Catalog.GuardedFilter | js/products.js:161-219 | One guarded step keeps exactly the input records that pass it. |
| Catalog.DeduplicateFiltered | js/products.js:224-251 | Chooses the deduplication policy: one card per group, or one per group and colour when a size or colour is chosen. |
| Catalog.SortFiltered | js/products.js:253-287 | The sort switch; an unknown key keeps the order. |
| Catalog.FilterDedupSort | js/products.js:155-287 | Filter, deduplicate, then sort. |
| Catalog.AddPageIds | js/products.js:362 | Adds every id of the current page to the selection. |
| Catalog.ProductCatalog.constructor | js/products.js:4-22 | No records, page 1, no selection, the default filters, loading. |
| Catalog.LoadedRecords | js/products.js:37-43 | The preloaded records when there are any, otherwise the fetched ones; empty exactly when both are. |
| Catalog.ProductCatalog.Initialize | js/products.js:24-73 | Succeeds exactly for a non-empty fetch. It then groups the records and shows the filtered list; an empty fetch changes neither. |
| Catalog.ProductCatalog.ApplyFilters | js/products.js:155-292 | The shown list is the filtered, deduplicated and sorted catalog; page 1 and no selection; records and filters unchanged. |
| Catalog.ProductCatalog.ShowResults | js/products.js:289-291 | Stores the list, goes back to page 1 and empties the selection. |
| Catalog.ProductCatalog.SetFilter | js/products.js:294-308 | Toggles the value in an array dimension or sets the sort key, then re-filters. |
| Catalog.ProductCatalog.ClearFilters | js/products.js:310-329 | Restores the default filters and re-filters. |
| Catalog.ProductCatalog.SetPriceRange | js/products.js:331-335 | Replaces the price range, nothing else, then re-filters. |
| Catalog.ProductCatalog.RemoveFilter | js/products.js:492-501 | Drops the value from every list and re-filters. |
| Catalog.ProductCatalog.SetPage | js/products.js:337-341 | Sets the page, accepting any number, and changes nothing else. |
| Catalog.ProductCatalog.ToggleProductSelection | js/products.js:348-355 | Flips the id in the selection and changes nothing else. |
| Catalog.ProductCatalog.ToggleSelectAll | js/products.js:357-365 | Applies select-all to the current page (a selection as large as the page is cleared, otherwise the page's ids are added; see CatalogPages.SelectAllOnPage) and changes nothing else. |
| Catalog.ProductCatalog.CurrentPageProducts | js/products.js:387-391 | At most six shown records, all from the filtered list. |
| Catalog.ProductCatalog.TotalPageCount | js/products.js:393-395 | Enough pages for the filtered list and no more; 0 exactly when the list is empty. |
| Catalog.ProductCatalog.PageButtons | js/products.js:644-658 | Seven buttons, from page 1 to the last page and including the current one, when there are more than seven pages; none for one page or none. |
| Cart.LineKeySameVariation | js/cart.js:19 | For one variation, two sizes share a line exactly when their labels agree; no size and `"default"` share a line. |
| Cart.LineKeyAmbiguous | js/cart.js:19 | Two different (variation, size) pairs that get the same line id. |
| Cart.FindLine | js/cart.js:20 | The first line with the id, or the cart's length when there is none. |
| Cart.Removed | js/cart.js:47 | removeItem never lengthens the cart (its members are stated by RemovedMembers). |
| Cart.SumsUpdate | js/cart.js:71-77 | Changing one line changes the total and the count by that line's difference alone. |
| Cart.SumsAppend | js/cart.js:71-77 | An appended line adds its value to the total and its quantity to the count. |
| Cart.CountAtLeastLines | js/cart.js:75-77 | With positive quantities, the item count is at least the number of lines, and positive exactly for a non-empty cart. |
| Cart.AddedMerges | js/cart.js:20-23 | A key already in the cart: its first line gains one unit and nothing else changes. |
| Cart.AddedAppends | js/cart.js:24-36 | A new key: one line with quantity 1 is appended. |
| Cart.AddedTwice | js/cart.js:18-44 | Adding the same new variation and size twice gives one line with quantity 2. |
| Cart.LineTotalBump | js/cart.js:23 | One more unit adds the line's price to its value. |
| Cart.AddedSums | js/cart.js:18-44 | addItem raises the count by one and the total by the price of the line that was hit. |
| Cart.SumsBump | js/cart.js:23 | One more unit on a line adds its price to the total and one to the count. |
| Cart.AddedKeepsInvariant | js/cart.js:18-44 | addItem keeps line ids unique and every quantity at least one. |
| Cart.RemovedAbsent | js/cart.js:46-50 | Removing an id that no line carries changes nothing. |
| Cart.RemovedMembers | js/cart.js:46-50 | removeItem keeps exactly the lines whose id differs. |
| Cart.RemovedDropsLine | js/cart.js:46-50 | With unique ids, removing a present line drops exactly that line and keeps the order. |
| Cart.RemovedKeepsInvariant | js/cart.js:46-50 | removeItem keeps line ids unique and every quantity at least one. |
| Cart.RemovedSums | js/cart.js:46-50 | Removing a line takes its value off the total and its quantity off the count. |
| Cart.UpdatedUnknown | js/cart.js:52-63 | An unknown id changes nothing. |
| Cart.UpdatedSets | js/cart.js:52-63 | A positive quantity replaces the first matching line's quantity (it is not added) and nothing else changes. |
| Cart.UpdatedRemoves | js/cart.js:52-63 | Zero or less on a present id removes every line with that id. |
| Cart.UpdatedKeepsInvariant | js/cart.js:52-63 | updateQuantity keeps line ids unique and every quantity at least one. |
| Cart.ShoppingCart.constructor | js/cart.js:4-11 | The stored lines, or an empty cart when nothing is stored. |
| Cart.ShoppingCart.SaveCart | js/cart.js:13-16 | The stored copy becomes the current lines. |
| Cart.ShoppingCart.AddItem | js/cart.js:18-44 | The lines become addItem's result and are stored; well-formed lines stay well formed. |
| Cart.ShoppingCart.RemoveItem | js/cart.js:46-50 | The lines lose the id and are stored; well-formed lines stay well formed. |
| Cart.ShoppingCart.UpdateQuantity | js/cart.js:52-63 | The lines become updateQuantity's result. They are stored only when the id was present. |
| Cart.ShoppingCart.ClearCart | js/cart.js:65-69 | Empty lines, stored; total and count 0. |
| Cart.ShoppingCart.GetTotal | js/cart.js:71-73 | The sum of price times quantity. |
| Cart.ShoppingCart.GetItemCount | js/cart.js:75-77 | The sum of the quantities; for well-formed lines, positive exactly when the cart is non-empty. |
| Validators.EmailMatchAtom | js/utils.js:60-63 | A match has no whitespace and exactly one '@', at the split point. |
| Validators.ValidateEmailShape | js/utils.js:60-63 | An e-mail passes exactly when it has no whitespace, one '@' with text before it, and a '.' with text on both sides after the '@'. |
| Validators.EmailMatchShape | js/utils.js:60-63 | A regular-expression match has that shape. |
| Validators.EmailShapeMatch | js/utils.js:60-63 | A string of that shape matches the regular expression. |
| Validators.ValidateEmailExamples | js/utils.js:60-63 | A plain address passes; no dot after the '@', a space, or an empty local part fails. |
| Validators.DigitsOnly | js/utils.js:68-71 | Stripping non-digits gives a string of digits no longer than the input. |
| Validators.DigitsOnlyAppend | js/utils.js:68-71 | Stripping distributes over concatenation. |
| Validators.DigitsOnlyExtremes | js/utils.js:68-71 | A digit string strips to itself; a string without digits strips to nothing. |
| Validators.ValidatePhoneDigits | js/utils.js:68-71 | A phone passes exactly when it uses only digits, spaces, `+`, `-`, `(` and `)` and holds at least ten digits. It is then at least ten characters long. |
| Validators.ValidatePhoneExamples | js/utils.js:68-71 | Ten digits pass; eight digits, or a dotted number, fail. |
| Validators.ReplaceCharFacts | js/utils.js:85-88 | Replacing an absent character changes nothing; the replaced character is gone; other characters stay. |
| Validators.QuotesEscapedAppend | js/utils.js:85-88 | Escaped text stays escaped when joined, if the left part does not end in a backslash. |
| Validators.FirstPassEscapes | js/utils.js:85-88 | The first pass puts a backslash before every single quote. |
| Validators.SecondPassKeepsEscapes | js/utils.js:85-88 | The second pass keeps every single quote escaped. |
| Validators.EscapeQuotesSafe | js/utils.js:85-88 | escapeQuotes leaves no double quote, a backslash before every single quote, and text without quotes unchanged. |
| Validators.EscapeQuotesFalsy | js/utils.js:85-88 | An absent or empty argument gives ''. |
| Validators.EscapeQuotesNotInjective | js/utils.js:85-88 | A double quote and the text `&quot;` escape to the same string. |
| ProductModal.VariationFilter | js/modal.js:35-84 | The variations the modal offers are never more than the group's. |
| ProductModal.VariationCallbackIsCatalogWithoutSizes | js/modal.js:35-84 | The modal's callback accepts exactly what the catalog's filters accept once the size filter is emptied. |
| ProductModal.VariationFilterIgnoresSizes | js/modal.js:35-84 | The size filter has no effect on the variations the modal offers. |
| ProductModal.VariationFilterMembers | js/modal.js:35-84 | The modal keeps exactly the variations its callback accepts. |
| ProductModal.VariationFilterSizeGap | js/modal.js:35-84 | The modal offers a variation that has none of the selected sizes. |
| ProductModal.TrimAll | js/modal.js:103 | Each piece is trimmed, position by position. |
| ProductModal.TrimmedPiece | js/modal.js:100-112 | A trimmed piece has no comma and no whitespace at either end. |
| ProductModal.TrimmedPieces | js/modal.js:100-112 | The same, for every piece of a split list. |
| ProductModal.OpenImagesShape | js/modal.js:100-112 | openProductModal always shows at least one image. An array is taken as it is. A text list keeps its non-empty trimmed pieces, or else the main image. Without images the main image is shown. |
| ProductModal.KeptPieces | js/modal.js:100-112 | Each kept image piece is non-empty, trimmed and has no comma. |
| ProductModal.ChangeImagesCount | js/modal.js:331-345 | changeModalVariation keeps one entry per comma-separated piece, empty pieces included. |
| ProductModal.ImageParsersDisagree | js/modal.js:331-345 | On `"a,,b"` and on an empty array, openProductModal and changeModalVariation give different image lists. |
| ProductModal.Wrap | js/modal.js:457-464 | The new index is in range whenever the list is non-empty. |
| ProductModal.WrapSteps | js/modal.js:454-477 | From a valid index one step forward is +1 mod n and one step back is -1 mod n; each step undoes the other. |
| ProductModal.FindVariation | js/modal.js:322-326 | The first variation with the id, or the length when there is none. |
| ProductModal.OpenedShowsFilteredVariation | js/modal.js:3-310 | The modal opens exactly for a known group with a variation that passes the filters. It then shows such a variation, with a non-empty image list, index 0 and no size. |
| ProductModal.ModalWindow.constructor | js/modal.js:299-306 | No modal record. |
| ProductModal.ModalWindow.OpenProductModal | js/modal.js:3-310 | Installs the opened record, or leaves the state alone for an unknown or emptied group. |
| ProductModal.ModalWindow.ChangeModalVariation | js/modal.js:312-353 | An unknown id changes nothing. Otherwise it installs the variation, its images, image 0 and no size. |
| ProductModal.ModalWindow.NavigateRelatedImage | js/modal.js:454-477 | Wraps the image index over the image list; only that index changes. |
| ProductModal.ModalWindow.NavigateModalImage | js/modal.js:525-548 | Wraps the same index over the number of variations; only that index changes. |
| ProductModal.ModalWindow.SelectModalSize | js/modal.js:550-557 | Records the size and nothing else. |
| ProductModal.ModalWindow.CloseProductModal | js/modal.js:479-491 | A click from inside the dialog is ignored; anything else clears the record. |
| ProductModal.ModalWindow.AddModalProductToBag | js/modal.js:559-579 | Without a size nothing happens. With one, the shown variation is added to the cart with that size and the modal closes. |
| InfoModal.KindOf | js/modal-info.js:13-16 | Exactly four type names are known, and each maps back to its own name. |
| InfoModal.KindNames | js/modal-info.js:13-16 | Every page is reached by its name; different pages have different titles. |
| InfoModal.InfoWindow.constructor | js/modal-info.js:4-9 | Closed, unlocked, no handler and no listener. |
| InfoModal.InfoWindow.Open | js/modal-info.js:4-797 | Without a container or with an unknown type nothing changes. Otherwise it opens with the page's title, locks the body, saves the scroll position and attaches one more Escape listener. |
| InfoModal.InfoWindow.Close | js/modal-info.js:799-817 | A click from inside the dialog is ignored. Otherwise it closes, unlocks the body, scrolls back to the saved position and clears that position to 0 (js/modal.js:884-904), and detaches the kept listener. |
| InfoModal.InfoWindow.KeyDown | js/modal-info.js:790-796 | Escape runs every attached listener in order, each closing the modal, except the kept one once the first close has detached it: the modal ends closed and unlocked with the kept listener gone, and the window is back at the saved position after one close or at 0 after several. Any other key changes nothing. |
| InfoModal.EscapeAfterThreeOpens | js/modal-info.js:790-815 | After three opens one Escape closes twice, leaves two listeners attached and scrolls the window to 0. |
| InfoModal.OpenThenClose | js/modal-info.js:779-817 | Opening a page and closing it restores the scroll position and leaves no listener. |
| InfoModal.ReopenLeavesListener | js/modal-info.js:812-815 | Opening twice and closing once leaves one listener attached. |
| InfoModal.ContainsPrefix | js/modal-info.js:819-847 | A needle's prefix occurs wherever the needle does. |
| InfoModal.NarrowingSearch | js/modal-info.js:819-847 | Typing one more character never brings back a hidden item. |
| InfoModal.SearchCase | js/modal-info.js:819-847 | The search ignores the case of the term, and the empty term matches every item. |
| InfoModal.FaqPanel.constructor | js/modal-info.js:515-751 | Everything is shown and every answer is collapsed. |
| InfoModal.FaqPanel.Filter | js/modal-info.js:819-847 | An item is shown exactly when it matches; a category exactly when one of its items does. |
| InfoModal.FaqPanel.Toggle | js/modal-info.js:849-871 | The accordion becomes the toggled state of the old one. |
| InfoModal.Toggled | js/modal-info.js:852-866 | The toggled accordion keeps the shape of every category. |
| InfoModal.ToggledOpensOne | js/modal-info.js:849-871 | After any click at most one answer is open: the clicked one, exactly when it was closed. |
| InfoModal.ToggleTwice | js/modal-info.js:849-871 | Clicking an open answer closes everything; clicking it again opens it alone. |
| Pages.CounterSource | js/pages.js:12-20 | The catalog's records, or the preloaded ones; empty exactly when both are. |
| Pages.ProductCountIsGroups | js/pages.js:22-29 | The product counter is the number of groups. It never exceeds the number of records and is positive for a non-empty list. |
| Pages.BrandCountBounds | js/pages.js:22-29 | The brand counter never exceeds the number of records and is 0 exactly when no record names a brand. |
| Pages.DecimalText | js/pages.js:35-49 | A counter's text is a non-empty string of digits. |
| Pages.DecimalTextValue | js/pages.js:35-49 | The counter's digits denote exactly the count, with no leading zero, and a single digit exactly below 10. |
| Pages.DecimalTextInjective | js/pages.js:35-49 | Two counts get the same text exactly when they are equal. |
| Pages.RetriesSaturate | js/pages.js:56-69 | The retry counter climbs to 20 and stays there; retries stop after twenty. |
| Pages.HomeCounters.constructor | js/pages.js:213 | Counter 0, no texts, nothing scheduled. |
| Pages.HomeCounters.Update | js/pages.js:6-71 | With records, the texts show the group and brand counts and the counter is reset. Without records, a retry is scheduled below 20 and the fallback texts are shown at 20; the counter stays at 20 at most. |
| Pages.PageFor | js/pages.js:91-103 | Any name other than `products` and `contact` renders the home page. |
| Pages.PageForName | js/pages.js:91-103 | Every page is reached by its own name, and only by it unless it is the home page. |
| Pages.Site.constructor | js/pages.js:76-106 | The home page is shown. |
| Pages.Site.NavigateTo | js/pages.js:76-106 | Without a main container nothing changes. Otherwise the link and the renderer follow the page and the header is restyled. The products page initializes the catalog with the loaded records (js/pages.js:559), grouping and filtering them when there are any; every other page leaves the catalog as it was. |
| Pages.Site.FilterAndNavigate | js/pages.js:111-158 | Shows the products page, whose catalog now holds the loaded records and their grouping, then clears the filters, writes the given entries in order and re-filters those records. Without a main container the records, the grouping and the loading flag stay as they were. |
| Pages.Site.FilterProducts | js/pages.js:163-174 | Filters by the given category, gender and subcategory, each only when given. |
| Pages.Site.FilterCategoryCard | js/pages.js:179-193 | Applies a home-page card's fixed filters; an unknown card clears every filter. |
| Pages.Write | js/pages.js:125-144 | Writing an entry (a flag, a one-element list or the sort key) makes the state show it and leaves every other field, the price range included. |
| Pages.ShowsOnlyField | js/pages.js:125-144 | Whether a state shows an entry depends only on that entry's field. |
| Pages.WrittenShowsLast | js/pages.js:125-144 | Later writes win: the state shows the last entry of every named field. |
| Pages.WrittenKeepsUnnamed | js/pages.js:125-144 | A field that no entry names keeps its value. |
| Pages.FilterWritesFromDefault | js/pages.js:111-158 | With distinct keys, every given entry is shown and every other field, the price range included, keeps its clearFilters default. |
| Pages.MenuFilters | js/pages.js:163-174 | Each non-empty argument under its own key and nothing else, with distinct keys. |
| Pages.MenuFiltersResult | js/pages.js:163-174 | Over the defaults, exactly the given dimensions are set. |
| Pages.CardFilters | js/pages.js:179-193 | Distinct keys; empty exactly for an index outside 0 to 3. |
| Pages.CardFiltersResult | js/pages.js:179-193 | A card's filters over the defaults give its state; an unknown index leaves the defaults. |
| Pages.ContactErrorsEmpty | js/pages.js:722-762 | No field fails exactly when the form is accepted. |
| Pages.ContactAcceptedNoFailure | js/pages.js:722-762 | The form is accepted exactly when none of the five checks fails. |
| Pages.ContactAcceptedLengths | js/pages.js:722-762 | An accepted form has a phone of at least 10 characters and an e-mail of at least 5. |
| Pages.Mark | js/pages.js:722-762 | A failing check shows its field's error and sets the error flag. |
| Pages.CheckFields | js/pages.js:722-762 | The errors shown are exactly the failing fields, and the flag is set exactly when the form is rejected. |
| Pages.CheckContactForm | js/pages.js:702-771 | The inputs are trimmed and checked, and the form is sent only when no check failed. |
| Shell.NavbarStyle | js/main.js:125-168 | The white bar exactly off the home page; transparent exactly at the top of the home page with no menu open. |
| Shell.WhiteBarShadow | js/main.js:125-168 | Off the home page the shadow is present exactly past 20 pixels. |
| Shell.BlackBarShadowStays | js/main.js:125-168 | The black bar keeps a shadow it had, where the white bar would have dropped it. |
| Shell.ScrollTwentyBoundary | js/main.js:125-168 | At exactly 20 pixels the home bar turns black without gaining a shadow. |
| Shell.Header.constructor | js/main.js:101-172 | The home page, no menu open, styled for the current scroll. |
| Shell.Header.UpdateNavbarStyle | js/main.js:125-168 | Restyles for the page, the scroll and the menu. The transparent bar has no shadow, and the white bar has one exactly past 20 pixels. |
| Shell.Header.SetMegaMenuOpen | js/main.js:113-123 | Records the hover state and restyles. |
| Shell.Header.UpdateForPage | js/main.js:176-179 | Records the page and restyles. |
| Shell.JsRem | js/main.js:457-471 | JavaScript's remainder: Euclidean for a non-negative dividend, and always smaller in size than the divisor. |
| Shell.NextSlideWraps | js/main.js:457-463 | The next slide is one more, wrapping from the last to the first. |
| Shell.PrevSlideWraps | js/main.js:465-471 | The previous slide is one less, wrapping from the first to the last. |
| Shell.SlideSteps | js/main.js:457-471 | Both steps stay in range, and each undoes the other. |
| Shell.HeroSlider.constructor | js/main.js:435-436 | Slide 0, nothing active, no timer. |
| Shell.HeroSlider.GoTo | js/main.js:438-455 | Without slides nothing changes. Otherwise the index becomes current, and only its slide and dot are active. |
| Shell.HeroSlider.Next | js/main.js:457-463 | With no slides nothing changes. Otherwise it moves to the next slide, wrapping, restarts autoplay, and exactly that slide and its dot (when it exists) are active; from a slide in range the new one is in range. |
| Shell.HeroSlider.Prev | js/main.js:465-471 | With no slides nothing changes. Otherwise it moves to the previous slide, wrapping, restarts autoplay, and exactly that slide and its dot (when it exists) are active; from a slide in range the new one is in range. |
| Shell.MenuGendersAppend | js/main.js:284-304 | A record adds its gender when it has a gender and a category. |
| Shell.MenuCategoriesAppend | js/main.js:284-304 | A record adds its category under its gender. |
| Shell.MenuSubcategoriesAppend | js/main.js:284-304 | A record adds a truthy subcategory under its gender and category. |
| Shell.AddToMenuAt | js/main.js:284-304 | What one record does to a branch and to a subcategory set. |
| Shell.AddToMenuStep | js/main.js:284-304 | One forEach step keeps the structure equal to that of the records seen so far. |
| Shell.CollectMenu | js/main.js:284-304 | The structure holds every gender of the catalog, its categories and their subcategories. |
| Shell.SortedListUnique | js/main.js:307-311 | A sorted list of a set is determined by the set. |
| Shell.SortedListTail | js/main.js:307-311 | Dropping the head of a sorted list drops the least member. |
| Shell.SortedListCount | js/main.js:307-311 | A sorted list of a set has one entry per member. |
| Shell.LexLePreorder | js/main.js:307-311 | Code-point order is a total preorder, as `sort()` needs. |
| Shell.SortedStrings | js/main.js:307-311 | The members of the set, each once, in strictly increasing code-point order. |
| Shell.SortBranch | js/main.js:307-311 | Every category's subcategory set becomes its sorted list. |
| Shell.SortMenu | js/main.js:307-311 | Every gender keeps its categories, each with its sorted subcategories. |
| Shell.SubcategoryLinks | js/main.js:342-357 | One link per subcategory, in the array's order. |
| Shell.CategoryColumnLinks | js/main.js:342-357 | A column offers every subcategory, and its 'All' link exactly when it has subcategories. |
| Shell.CategoryColumns | js/main.js:342-357 | One column per sorted category name, in order. |
| Shell.UpdateMegaMenuForGender | js/main.js:326-372 | With a menu container, the columns are the sorted categories followed by Featured. |
| Shell.BuildDynamicMegaMenu | js/main.js:275-321 | Nothing for an empty catalog. Otherwise each of the four genders' menus shows its records' categories, sorted, each with its sorted truthy subcategories, then Featured. |
| Shell.BranchMatches | js/main.js:316-318 | A gender's branch, or the empty one, holds its categories and their sorted subcategories. |
| Sheets.Lookup | js/googleSheets.js:78-107 | The first member with the name, or none when no member has it. |
| Sheets.FirstArrayMember | js/googleSheets.js:99-107 | The first member holding a non-empty array, or none when no member does. |
| Sheets.SelectProducts | js/googleSheets.js:78-113 | A selected list is never empty. |
| Sheets.SelectedFromBody | js/googleSheets.js:78-113 | A selected list is the body itself or one of its top-level members. |
| Sheets.EnvelopeFirst | js/googleSheets.js:79-82 | A successful envelope's `data` array is taken whatever else the body holds. |
| Sheets.FailureFlag | js/googleSheets.js:84-97 | `success: false` is an error only without a `products` array. |
| Sheets.EmptyEnvelopeHidesProducts | js/googleSheets.js:79-113 | An empty `data` array hides a non-empty `products` array. |
| Sheets.ScalarBodies | js/googleSheets.js:78-113 | Bodies that are neither objects nor arrays never yield products. |
| Sheets.FetchProducts | js/googleSheets.js:8-19 | With mock data switched on, or without a configured sheet, mock data comes without a request. |
| Sheets.FetchFromSchedule | js/googleSheets.js:6-135 | At most the allowed number of requests. The delays between them are 1000·(n+1) ms. Every request but the last failed. A sheet result is the last response's list. Mock data and the toast come exactly when every allowed request failed. |
| Sheets.DefaultScheduleAllFail | js/googleSheets.js:120-134 | With the default limit, three failed requests lead to waits of 1 s and 2 s, then mock data with one toast. |
| Sheets.Padded | js/googleSheets.js:346 | The padded number has exactly the requested width. |
| Sheets.PaddedInjective | js/googleSheets.js:346 | Different numbers below 10^w pad differently. |
| Sheets.MockProducts | js/googleSheets.js:268-377 | 102 records, record k made from base k/6 and colour k mod 6. |
| Sheets.MockRecordKey | js/googleSheets.js:345-369 | A mock record is keyed by its own id, `PROD-` plus its number. |
| Sheets.MockIdsDistinct | js/googleSheets.js:346 | Mock ids are distinct. |
| Sheets.MockKeysDiffer | js/googleSheets.js:345-369 | Two mock records never share a group key. |
| Sheets.MockRecordsUngrouped | js/googleSheets.js:268-377 | Every mock record is its own group, so the catalog sees 102 groups. |
| Sheets.InquiryLines | js/googleSheets.js:228-241 | One inquiry line per cart line. |
| Sheets.InquiryLinesProject | js/googleSheets.js:228-241 | Each inquiry line carries its cart line's name, colour, size, quantity and price, in cart order. |
| Sheets.InquiryTotal | js/googleSheets.js:228-241 | The inquiry's total is the sum over its own lines and equals the cart's total. |
| Sheets.Submissions | js/googleSheets.js:141-260 | With the sheet off, all three forms report success without sending. With it on, each sends its action and succeeds exactly when the POST does; the cart inquiry's total is that of its lines. |

## Left out

- Rendering: HTML templates, icons, skeletons, toasts and animations are not modelled, nor is the window's scroll to the top after each navigation. The catalog's initialisation on the products page is modelled (`Pages.Site.NavigateTo`).
- Pages.Site.NavigateTo: the home page's reset of the counters' retry count and its counter update are not performed here; they are modelled by `Pages.HomeCounters.Update` on its own.
- Pages.Site.FilterAndNavigate: the catalog's initialisation is taken to finish before the 200 ms timer fires. That holds when records are preloaded; a fetch that answers after the timer, and the interleaving it causes, is not modelled.
- Network I/O: `fetch`, the abort timeout and the `no-cors` mode. A response is a parameter (`Sheets.Response`), the request sequence is a function from attempt number to response, and a POST's failure is a boolean.
- Timers: the slider's auto-play interval, the counters' 500 ms retry and the fetch delays. The delays are recorded in the outcome, and nothing waits.
- Local storage is modelled as the cart's persisted copy. Its serialisation and quota errors are not modelled.
- `localeCompare` is modelled as code-point order (`Text.LexLe`), so locale collation is not. `Date` values are modelled as an integer key. `Math.random` choices in the mock catalog are parameters (`Sheets.MockDraw`).
- Prices and discounts are integers. Floating-point arithmetic and `toFixed` formatting are not modelled.
- JSON objects have distinct keys and keep their order. Duplicate keys, and `for…in` listing integer-like keys first, are not modelled.
- The presence of DOM elements (main container, modal container, menus, slides, dots) is modelled as boolean or count parameters.
- Pages.Site.FilterAndNavigate: only the flag keys, the list keys and `sortBy` are modelled, with values of the right type. Unknown keys, ill-typed values and a `priceRange` key are not. The source would wrap a `priceRange` value into `[[min, max]]`, since that filter is an array, and then no record would pass the price test; no caller passes one.
- FilterWritesFromDefault: states the writes for the keys modelled above only, so it says nothing about a `priceRange` key.
- InfoModal.FaqPanel.Toggle: the chevron icon's rotation is not modelled.
- Image clicks (`changeModalImage`, `changeModalRelatedImage`), the grid/list view switch, adding the selection to the bag, and the checkout dialogs are not modelled. Each only writes the DOM or chains operations modelled here.
- The newsletter form's handler and the mobile menu are not modelled. They are UI around `Sheets.SubmitNewsletter` and `Validators`.
- The second `filterProducts` and `toggleMobileMenu` in `js/utils.js` are not modelled, because the definitions in `js/pages.js` and `js/main.js` replace them.
- `updateActiveNav` is not modelled. It only marks DOM links, and the model keeps the active page name instead.
- `disableBodyScroll` nested inside an already locked body is not modelled: the model locks once per open and restores the position saved by the last open.
- The product modal's keyboard navigation, the size guide and the legal modals are not modelled. They are outside the modelled core.
- Sheets.SelectProducts: JSON numbers are integers and `success` is compared with the booleans only. Truthy non-boolean values are not modelled.
- Strings are sequences of Unicode code points, whereas JavaScript strings are sequences of UTF-16 code units. The following contracts follow from that choice:
- Text.Lower: lower-cases the ASCII letters only, whereas `toLowerCase` lower-cases all of Unicode. Lower-casing outside ASCII is not modelled.
- NarrowingSearch: holds for the ASCII lower-casing of `Text.Lower`. With full Unicode `toLowerCase`, the context-dependent final-sigma rule can change an earlier character when one is appended, and the property is not claimed for it.
- Filter: `InfoModal.FaqPanel.Filter` matches with ASCII-only lower-casing, so items that match only under Unicode case mapping are not modelled.
- SortedStrings: orders by code point, whereas `sort()` compares UTF-16 code units. The two orders differ when a character above U+FFFF is compared with one from U+E000 to U+FFFF. The same holds for `Text.LexLe`, `Shell.LexLePreorder` and `CatalogQuery.NameSortOrdered`.
- Pages.CheckFields and Pages.CheckContactForm count length in code points, whereas `.length` counts UTF-16 code units. A character above U+FFFF counts 1 here and 2 in the source, so for example a one-emoji name is rejected here and accepted there.
- Cart.Removed: its own contract bounds the length only. The full meaning is stated by Cart.RemovedMembers and Cart.RemovedDropsLine.
- ProductModal.VariationFilter: its own contract bounds the length only. Its members are stated by ProductModal.VariationFilterMembers.
