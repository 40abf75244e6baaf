/** The entities the storefront works on: product records as they arrive from
    the spreadsheet (js/googleSheets.js, js/products.js) and the catalog's
    filter state (js/products.js:12-21, 310-324). Absent or falsy string
    fields (`productId`, `brand`, `subcategory`, a size) are the empty string. */
module ProductData {

  /** A value that may be absent (JavaScript's null or undefined). */
  datatype Option<T> = None | Some(value: T)

  /** The `images` field of a record: absent, a comma-separated string, or
      an array of URLs. */
  datatype Images = NoImages | ImageText(text: string) | ImageArray(urls: seq<string>)

  /** One product record: a colour variation of a logical product. Prices and
      discounts are integers; `dateAdded` is an opaque comparable key where 0
      stands for a missing date (1970-01-01). A missing discount is 0. */
  datatype Product = Product(
    id: string,
    productId: string,
    name: string,
    brand: string,
    category: string,
    subcategory: string,
    gender: string,
    price: int,
    discount: int,
    color: string,
    sizes: seq<string>,
    image: string,
    images: Images,
    isNew: bool,
    isFeatured: bool,
    isBestSeller: bool,
    dateAdded: int)

  /** `product.productId || product.id`: the key of a record's group. */
  function GroupKey(p: Product): string {
    if p.productId != "" then p.productId else p.id
  }

  function ColorOf(p: Product): string {
    p.color
  }

  /** The catalog's filter state. */
  datatype Filters = Filters(
    category: seq<string>,
    subcategory: seq<string>,
    gender: seq<string>,
    brands: seq<string>,
    sizes: seq<string>,
    colors: seq<string>,
    priceMin: int,
    priceMax: int,
    sortBy: string,
    isNew: bool,
    isFeatured: bool,
    isBestSeller: bool,
    hasDiscount: bool)

  /** The state `clearFilters` installs; the constructor's state is the same
      (it leaves the four flags undefined, which reads as false). */
  const DefaultFilters: Filters :=
    Filters([], [], [], [], [], [], 0, 20000, "featured", false, false, false, false)

  /** The array-valued filter dimensions other than the price range. */
  datatype Dimension = Category | Subcategory | Gender | Brands | Sizes | Colors

  /** The boolean filter flags. */
  datatype Flag = IsNew | IsFeatured | IsBestSeller | HasDiscount

  function Values(f: Filters, d: Dimension): seq<string> {
    match d
    case Category => f.category
    case Subcategory => f.subcategory
    case Gender => f.gender
    case Brands => f.brands
    case Sizes => f.sizes
    case Colors => f.colors
  }

  /** `filters[d] = v` on one array dimension. */
  function WithValues(f: Filters, d: Dimension, v: seq<string>): (g: Filters)
    ensures Values(g, d) == v
    ensures forall e :: e != d ==> Values(g, e) == Values(f, e)
    ensures g.priceMin == f.priceMin && g.priceMax == f.priceMax && g.sortBy == f.sortBy
    ensures forall fl :: FlagValue(g, fl) == FlagValue(f, fl)
  {
    match d
    case Category => f.(category := v)
    case Subcategory => f.(subcategory := v)
    case Gender => f.(gender := v)
    case Brands => f.(brands := v)
    case Sizes => f.(sizes := v)
    case Colors => f.(colors := v)
  }

  function FlagValue(f: Filters, fl: Flag): bool {
    match fl
    case IsNew => f.isNew
    case IsFeatured => f.isFeatured
    case IsBestSeller => f.isBestSeller
    case HasDiscount => f.hasDiscount
  }

  /** `filters[fl] = b` on one flag. */
  function WithFlag(f: Filters, fl: Flag, b: bool): (g: Filters)
    ensures FlagValue(g, fl) == b
    ensures forall other :: other != fl ==> FlagValue(g, other) == FlagValue(f, other)
    ensures forall d :: Values(g, d) == Values(f, d)
    ensures g.priceMin == f.priceMin && g.priceMax == f.priceMax && g.sortBy == f.sortBy
  {
    match fl
    case IsNew => f.(isNew := b)
    case IsFeatured => f.(isFeatured := b)
    case IsBestSeller => f.(isBestSeller := b)
    case HasDiscount => f.(hasDiscount := b)
  }

  /** Two filter states agree when every list, flag, bound and the sort key
      agree. */
  lemma FiltersEqual(a: Filters, b: Filters)
    requires forall d :: Values(a, d) == Values(b, d)
    requires forall fl :: FlagValue(a, fl) == FlagValue(b, fl)
    requires a.priceMin == b.priceMin && a.priceMax == b.priceMax && a.sortBy == b.sortBy
    ensures a == b
  {
    assert Values(a, Category) == Values(b, Category) && Values(a, Subcategory) == Values(b, Subcategory);
    assert Values(a, Gender) == Values(b, Gender) && Values(a, Brands) == Values(b, Brands);
    assert Values(a, Sizes) == Values(b, Sizes) && Values(a, Colors) == Values(b, Colors);
    assert FlagValue(a, IsNew) == FlagValue(b, IsNew) && FlagValue(a, IsFeatured) == FlagValue(b, IsFeatured);
    assert FlagValue(a, IsBestSeller) == FlagValue(b, IsBestSeller) && FlagValue(a, HasDiscount) == FlagValue(b, HasDiscount);
  }
}
