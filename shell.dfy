/** The page shell (js/main.js): the navbar's look as the page, the scroll
    position and the mega menu change; the hero slider; and the mega menus
    built from the product records. */
module Shell {
  import opened ProductData
  import opened Text
  import opened Seqs

  // ---------------------------------------------------------------------
  // Navbar (initializeHeaderScroll, updateNavbarStyle, updateNavbarForPage)
  // ---------------------------------------------------------------------

  /** The three looks of the header: transparent over the home page's hero
      (white text), black with white text, and the default white. */
  datatype NavStyle = Transparent | BlackBar | WhiteBar

  /** The background the header is painted with. */
  function Background(st: NavStyle): string {
    match st
    case Transparent => "transparent"
    case BlackBar => "#000"
    case WhiteBar => "#fff"
  }

  /** The look updateNavbarStyle picks. */
  function NavbarStyle(page: string, scroll: int, megaMenuOpen: bool): (st: NavStyle)
    ensures st == WhiteBar <==> page != "home"
    ensures st == Transparent <==> page == "home" && scroll < 20 && !megaMenuOpen
  {
    if page == "home" then
      if scroll < 20 && !megaMenuOpen then Transparent else BlackBar
    else WhiteBar
  }

  /** Whether `shadow-md` is on the header afterwards: removed on the
      transparent bar, added past 20 pixels on the black bar (and never
      removed there), and on the white bar present exactly past 20 pixels. */
  function NextShadow(st: NavStyle, scroll: int, shadow: bool): bool {
    match st
    case Transparent => false
    case BlackBar => shadow || scroll > 20
    case WhiteBar => scroll > 20
  }

  /** Away from the home page the shadow depends only on the scroll
      position: present exactly past 20 pixels. */
  lemma WhiteBarShadow(page: string, scroll: int, megaMenuOpen: bool, shadow: bool)
    requires page != "home"
    ensures NavbarStyle(page, scroll, megaMenuOpen) == WhiteBar
    ensures NextShadow(NavbarStyle(page, scroll, megaMenuOpen), scroll, shadow) <==> scroll > 20
  {
  }

  /** On the home page the shadow, once added by the black bar, stays while
      the bar stays black: scrolled past 20, then back to the top with the
      mega menu open, the bar is black and still has its shadow, where the
      white bar would have dropped it. */
  lemma BlackBarShadowStays()
    ensures var st1 := NavbarStyle("home", 30, false);
      var sh1 := NextShadow(st1, 30, false);
      var st2 := NavbarStyle("home", 0, true);
      st1 == BlackBar && sh1 && st2 == BlackBar && NextShadow(st2, 0, sh1)
      && !NextShadow(NavbarStyle("products", 0, true), 0, sh1)
  {
  }

  /** At exactly 20 pixels the home page is no longer "at top" but not yet
      "scrolled": the bar turns black without gaining a shadow. */
  lemma ScrollTwentyBoundary(shadow: bool)
    ensures NavbarStyle("home", 20, false) == BlackBar
    ensures NextShadow(BlackBar, 20, shadow) == shadow
  {
  }

  /** The header and the state its styling reads: `window.currentPage`
      and whether a mega menu is hovered. */
  class Header {
    var currentPage: string
    var megaMenuOpen: bool
    var style: NavStyle
    var shadow: bool

    /** initializeHeaderScroll: the page starts as 'home', no menu is open,
        and the style is set once for the current scroll position. */
    constructor(scroll: int)
      ensures currentPage == "home" && !megaMenuOpen
      ensures style == NavbarStyle("home", scroll, false)
      ensures shadow == (style == BlackBar && scroll > 20)
    {
      currentPage := "home";
      megaMenuOpen := false;
      var st := NavbarStyle("home", scroll, false);
      style := st;
      shadow := NextShadow(st, scroll, false);
    }

    /** updateNavbarStyle, run on every scroll event. */
    method UpdateNavbarStyle(scroll: int)
      modifies this`style, this`shadow
      ensures style == NavbarStyle(currentPage, scroll, megaMenuOpen)
      ensures shadow == NextShadow(style, scroll, old(shadow))
      ensures style == Transparent ==> !shadow
      ensures style == WhiteBar ==> (shadow <==> scroll > 20)
      ensures scroll > 20 ==> shadow == (style != Transparent)
    {
      var isHomePage := currentPage == "home";
      var isAtTop := scroll < 20;
      if isHomePage {
        if isAtTop && !megaMenuOpen {
          style := Transparent;
          shadow := false;
        } else {
          style := BlackBar;
          if scroll > 20 {
            shadow := true;
          }
        }
      } else {
        style := WhiteBar;
        if scroll > 20 {
          shadow := true;
        } else {
          shadow := false;
        }
      }
    }

    /** The mega-menu wrapper's mouseenter / mouseleave handlers. */
    method SetMegaMenuOpen(open: bool, scroll: int)
      modifies this`megaMenuOpen, this`style, this`shadow
      ensures megaMenuOpen == open
      ensures style == NavbarStyle(currentPage, scroll, open)
      ensures shadow == NextShadow(style, scroll, old(shadow))
    {
      megaMenuOpen := open;
      UpdateNavbarStyle(scroll);
    }

    /** window.updateNavbarForPage: record the page, then restyle. */
    method UpdateForPage(page: string, scroll: int)
      modifies this`currentPage, this`style, this`shadow
      ensures currentPage == page
      ensures style == NavbarStyle(page, scroll, megaMenuOpen)
      ensures shadow == NextShadow(style, scroll, old(shadow))
    {
      currentPage := page;
      UpdateNavbarStyle(scroll);
    }
  }

  // ---------------------------------------------------------------------
  // Hero slider (heroSliderGoTo, heroSliderNext, heroSliderPrev)
  // ---------------------------------------------------------------------

  /** JavaScript's `%` on integers: the remainder takes the sign of the
      dividend. */
  function JsRem(a: int, n: int): (r: int)
    requires n > 0
    ensures a >= 0 ==> r == a % n
    ensures -n < r < n
  {
    if a >= 0 then a % n else -((-a) % n)
  }

  /** The slide after `cur` among `n`. */
  function NextSlide(cur: int, n: int): int
    requires n > 0
  {
    JsRem(cur + 1, n)
  }

  /** The slide before `cur` among `n`. */
  function PrevSlide(cur: int, n: int): int
    requires n > 0
  {
    JsRem(cur - 1 + n, n)
  }

  /** From a slide in range the next one is in range and wraps at the end. */
  lemma NextSlideWraps(cur: int, n: int)
    requires n > 0 && 0 <= cur < n
    ensures NextSlide(cur, n) == if cur == n - 1 then 0 else cur + 1
  {
    if cur == n - 1 {
      assert cur + 1 == n;
    } else {
      assert 0 <= cur + 1 < n;
    }
  }

  /** From a slide in range the previous one is in range and wraps at the
      start. */
  lemma PrevSlideWraps(cur: int, n: int)
    requires n > 0 && 0 <= cur < n
    ensures PrevSlide(cur, n) == if cur == 0 then n - 1 else cur - 1
  {
    if cur == 0 {
      assert 0 <= cur - 1 + n < n;
    } else {
      assert cur - 1 + n == (cur - 1) + n;
      assert n <= cur - 1 + n < 2 * n;
    }
  }

  /** From a slide in range both steps land in range, and each undoes the
      other. */
  lemma SlideSteps(cur: int, n: int)
    requires n > 0 && 0 <= cur < n
    ensures 0 <= NextSlide(cur, n) < n && 0 <= PrevSlide(cur, n) < n
    ensures PrevSlide(NextSlide(cur, n), n) == cur
    ensures NextSlide(PrevSlide(cur, n), n) == cur
  {
    NextSlideWraps(cur, n);
    PrevSlideWraps(cur, n);
    PrevSlideWraps(NextSlide(cur, n), n);
    NextSlideWraps(PrevSlide(cur, n), n);
  }

  /** The slider: the module-level `currentSlide`, the slides and dots
      carrying the `active` class, and whether the five-second auto-advance
      timer is running. The numbers of slides and dots are those found in
      the page. */
  class HeroSlider {
    var currentSlide: int
    var activeSlides: set<int>
    var activeDots: set<int>
    var autoPlay: bool

    constructor()
      ensures currentSlide == 0 && activeSlides == {} && activeDots == {} && !autoPlay
    {
      currentSlide := 0;
      activeSlides := {};
      activeDots := {};
      autoPlay := false;
    }

    /** heroSliderGoTo: with no slides nothing happens; otherwise `index`
        becomes current, and only the slide and dot at `index` (when they
        exist) are active; the timer restarts. */
    method GoTo(index: int, slideCount: nat, dotCount: nat)
      modifies this
      ensures slideCount == 0 ==>
        currentSlide == old(currentSlide) && activeSlides == old(activeSlides)
        && activeDots == old(activeDots) && autoPlay == old(autoPlay)
      ensures slideCount > 0 ==>
        currentSlide == index && autoPlay
        && activeSlides == (if 0 <= index < slideCount then {index} else {})
        && activeDots == (if 0 <= index < dotCount then {index} else {})
    {
      if slideCount == 0 {
        return;
      }
      activeSlides := {};
      activeDots := {};
      currentSlide := index;
      if 0 <= currentSlide < slideCount {
        activeSlides := activeSlides + {currentSlide};
      }
      if 0 <= currentSlide < dotCount {
        activeDots := activeDots + {currentSlide};
      }
      autoPlay := true;
    }

    /** heroSliderNext. */
    method Next(slideCount: nat, dotCount: nat)
      modifies this
      ensures slideCount == 0 ==>
        currentSlide == old(currentSlide) && activeSlides == old(activeSlides)
        && activeDots == old(activeDots) && autoPlay == old(autoPlay)
      ensures slideCount > 0 ==>
        currentSlide == NextSlide(old(currentSlide), slideCount) && autoPlay
        && activeSlides == (if 0 <= currentSlide < slideCount then {currentSlide} else {})
        && activeDots == (if 0 <= currentSlide < dotCount then {currentSlide} else {})
      ensures slideCount > 0 && 0 <= old(currentSlide) < slideCount ==>
        0 <= currentSlide < slideCount && activeSlides == {currentSlide}
    {
      if slideCount == 0 {
        return;
      }
      currentSlide := JsRem(currentSlide + 1, slideCount);
      GoTo(currentSlide, slideCount, dotCount);
      if 0 <= old(currentSlide) < slideCount {
        SlideSteps(old(currentSlide), slideCount);
      }
    }

    /** heroSliderPrev. */
    method Prev(slideCount: nat, dotCount: nat)
      modifies this
      ensures slideCount == 0 ==>
        currentSlide == old(currentSlide) && activeSlides == old(activeSlides)
        && activeDots == old(activeDots) && autoPlay == old(autoPlay)
      ensures slideCount > 0 ==>
        currentSlide == PrevSlide(old(currentSlide), slideCount) && autoPlay
        && activeSlides == (if 0 <= currentSlide < slideCount then {currentSlide} else {})
        && activeDots == (if 0 <= currentSlide < dotCount then {currentSlide} else {})
      ensures slideCount > 0 && 0 <= old(currentSlide) < slideCount ==>
        0 <= currentSlide < slideCount && activeSlides == {currentSlide}
    {
      if slideCount == 0 {
        return;
      }
      currentSlide := JsRem(currentSlide - 1 + slideCount, slideCount);
      GoTo(currentSlide, slideCount, dotCount);
      if 0 <= old(currentSlide) < slideCount {
        SlideSteps(old(currentSlide), slideCount);
      }
    }
  }

  // ---------------------------------------------------------------------
  // Mega menus (buildDynamicMegaMenu, updateMegaMenuForGender)
  // ---------------------------------------------------------------------

  /** A record takes part in the menus only with a gender and a category. */
  predicate MenuRecord(p: Product) {
    p.gender != "" && p.category != ""
  }

  /** The genders the menu structure gets a branch for. */
  function MenuGenders(s: seq<Product>): set<string> {
    set p | p in s && MenuRecord(p) :: p.gender
  }

  /** The categories under gender `g`. */
  function MenuCategories(s: seq<Product>, g: string): set<string> {
    set p | p in s && MenuRecord(p) && p.gender == g :: p.category
  }

  /** The truthy subcategories under gender `g` and category `c`. */
  function MenuSubcategories(s: seq<Product>, g: string, c: string): set<string> {
    set p | p in s && MenuRecord(p) && p.gender == g && p.category == c && p.subcategory != "" :: p.subcategory
  }

  /** The branch of gender `g` (no categories when missing). */
  function BranchOf(m: map<string, map<string, set<string>>>, g: string): map<string, set<string>> {
    if g in m then m[g] else map[]
  }

  /** The subcategories of category `c` in a branch (none when missing). */
  function SubsOf(branch: map<string, set<string>>, c: string): set<string> {
    if c in branch then branch[c] else {}
  }

  /** The menu structure of `s`: genders, their categories, and the set of
      subcategories of each. */
  ghost predicate IsMenuStructure(m: map<string, map<string, set<string>>>, s: seq<Product>) {
    m.Keys == MenuGenders(s)
    && (forall g :: BranchOf(m, g).Keys == MenuCategories(s, g))
    && (forall g, c :: SubsOf(BranchOf(m, g), c) == MenuSubcategories(s, g, c))
  }

  /** The subcategory a record contributes, if any. */
  function SubOf(p: Product): set<string> {
    if p.subcategory != "" then {p.subcategory} else {}
  }

  /** One call of the `forEach` body: skip a record without gender or
      category; create the gender's branch and the category's set when
      missing; add a truthy subcategory. */
  function AddToMenu(m: map<string, map<string, set<string>>>, p: Product): map<string, map<string, set<string>>> {
    if !MenuRecord(p) then m
    else
      var branch := BranchOf(m, p.gender);
      m[p.gender := branch[p.category := SubsOf(branch, p.category) + SubOf(p)]]
  }

  lemma MenuGendersAppend(s: seq<Product>, x: Product)
    ensures MenuGenders(s + [x]) == MenuGenders(s) + (if MenuRecord(x) then {x.gender} else {})
  {
    assert forall p :: p in s + [x] <==> p in s || p == x;
  }

  lemma MenuCategoriesAppend(s: seq<Product>, x: Product, g: string)
    ensures MenuCategories(s + [x], g) ==
      MenuCategories(s, g) + (if MenuRecord(x) && x.gender == g then {x.category} else {})
  {
    assert forall p :: p in s + [x] <==> p in s || p == x;
  }

  lemma MenuSubcategoriesAppend(s: seq<Product>, x: Product, g: string, c: string)
    ensures MenuSubcategories(s + [x], g, c) ==
      MenuSubcategories(s, g, c) + (if MenuRecord(x) && x.gender == g && x.category == c then SubOf(x) else {})
  {
    assert forall p :: p in s + [x] <==> p in s || p == x;
  }

  /** What one record does to a branch and to a subcategory set. */
  lemma AddToMenuAt(m: map<string, map<string, set<string>>>, x: Product, g: string, c: string)
    ensures BranchOf(AddToMenu(m, x), g).Keys ==
      BranchOf(m, g).Keys + (if MenuRecord(x) && x.gender == g then {x.category} else {})
    ensures SubsOf(BranchOf(AddToMenu(m, x), g), c) ==
      SubsOf(BranchOf(m, g), c) + (if MenuRecord(x) && x.gender == g && x.category == c then SubOf(x) else {})
  {
  }

  lemma AddToMenuStep(m: map<string, map<string, set<string>>>, s: seq<Product>, x: Product)
    requires IsMenuStructure(m, s)
    ensures IsMenuStructure(AddToMenu(m, x), s + [x])
  {
    var m' := AddToMenu(m, x);
    MenuGendersAppend(s, x);
    forall g
      ensures BranchOf(m', g).Keys == MenuCategories(s + [x], g)
    {
      AddToMenuAt(m, x, g, "");
      MenuCategoriesAppend(s, x, g);
    }
    forall g, c
      ensures SubsOf(BranchOf(m', g), c) == MenuSubcategories(s + [x], g, c)
    {
      AddToMenuAt(m, x, g, c);
      MenuSubcategoriesAppend(s, x, g, c);
    }
  }

  /** The `forEach` of buildDynamicMegaMenu that fills the structure. */
  method CollectMenu(products: seq<Product>) returns (m: map<string, map<string, set<string>>>)
    ensures IsMenuStructure(m, products)
  {
    m := map[];
    var i := 0;
    while i < |products|
      invariant 0 <= i <= |products|
      invariant IsMenuStructure(m, products[..i])
    {
      assert products[..i + 1] == products[..i] + [products[i]];
      AddToMenuStep(m, products[..i], products[i]);
      m := AddToMenu(m, products[i]);
      i := i + 1;
    }
    assert products[..i] == products;
  }

  /** `r` lists the members of `s` in strictly increasing order, so each
      exactly once. */
  predicate SortedListOf(r: seq<string>, s: set<string>) {
    (forall i, j :: 0 <= i < j < |r| ==> LexLt(r[i], r[j]))
    && (forall x :: x in r ==> x in s)
    && (forall x :: x in s ==> x in r)
  }

  /** A sorted list of a set is determined by the set. */
  lemma {:induction false} SortedListUnique(r: seq<string>, q: seq<string>, s: set<string>)
    requires SortedListOf(r, s) && SortedListOf(q, s)
    ensures r == q
    decreases |r|
  {
    SortedListCount(r, s);
    SortedListCount(q, s);
    if r != [] {
      assert r[0] in s && q[0] in s;
      if r[0] != q[0] {
        var k :| 0 <= k < |q| && q[k] == r[0];
        var l :| 0 <= l < |r| && r[l] == q[0];
        assert LexLt(q[0], r[0]) && LexLt(r[0], q[0]);
        LexLeAntisymmetric(q[0], r[0]);
      }
      var s' := s - {r[0]};
      SortedListTail(r, s);
      SortedListTail(q, s);
      SortedListUnique(r[1..], q[1..], s');
      assert r == [r[0]] + r[1..] && q == [q[0]] + q[1..];
    }
  }

  /** Dropping the first entry of a sorted list drops the least member. */
  lemma SortedListTail(r: seq<string>, s: set<string>)
    requires r != [] && SortedListOf(r, s)
    ensures SortedListOf(r[1..], s - {r[0]})
  {
    forall x | x in r[1..]
      ensures x in s - {r[0]}
    {
      var k :| 1 <= k < |r| && r[k] == x;
      assert LexLt(r[0], r[k]);
    }
    forall x | x in s - {r[0]}
      ensures x in r[1..]
    {
      var k :| 0 <= k < |r| && r[k] == x;
    }
  }

  /** A sorted list of a set has one entry per member. */
  lemma {:induction false} SortedListCount(r: seq<string>, s: set<string>)
    requires SortedListOf(r, s)
    ensures |r| == |s|
    decreases |r|
  {
    if r == [] {
      assert forall x :: x !in s;
      assert s == {};
    } else {
      SortedListTail(r, s);
      assert r[0] in s;
      SortedListCount(r[1..], s - {r[0]});
    }
  }

  /** Code-point order is a total preorder, as `sort()` needs. */
  lemma LexLePreorder()
    ensures TotalPreorder(LexLe)
  {
    forall a, b
      ensures LexLe(a, b) || LexLe(b, a)
    {
      LexLeTotal(a, b);
    }
    forall a, b, c | LexLe(a, b) && LexLe(b, c)
      ensures LexLe(a, c)
    {
      LexLeTransitive(a, b, c);
    }
  }

  /** Two positions holding the same value count it twice. */
  lemma TwoCopies(r: seq<string>, i: int, j: int)
    requires 0 <= i < j < |r| && r[i] == r[j]
    ensures multiset(r)[r[i]] >= 2
  {
    assert r == r[..j] + r[j..];
    assert r[..j][i] == r[i];
    assert r[j..][0] == r[i];
  }

  /** `Array.from(set).sort()`: the members in insertion order, sorted by
      code points. */
  method SortedStrings(s: set<string>) returns (r: seq<string>)
    ensures SortedListOf(r, s)
  {
    var list: seq<string> := [];
    var rest := s;
    while rest != {}
      invariant rest <= s
      invariant forall y :: multiset(list)[y] == if y in s && y !in rest then 1 else 0
      decreases |rest|
    {
      var x :| x in rest;
      list := list + [x];
      rest := rest - {x};
    }
    r := SortBy(list, LexLe);
    LexLePreorder();
    SortBySorted(list, LexLe);
    forall i, j | 0 <= i < j < |r|
      ensures LexLt(r[i], r[j])
    {
      if r[i] == r[j] {
        TwoCopies(r, i, j);
        assert false;
      }
    }
    forall x
      ensures x in r <==> x in s
    {
      assert x in r <==> multiset(r)[x] > 0;
    }
  }

  /** The categories of one gender, each with its sorted subcategories. */
  ghost predicate SortedBranch(out: map<string, seq<string>>, branch: map<string, set<string>>) {
    out.Keys == branch.Keys && forall c :: c in out ==> SortedListOf(out[c], branch[c])
  }

  /** The inner `for…in` of the conversion: every category's set becomes
      a sorted array. */
  method SortBranch(branch: map<string, set<string>>) returns (out: map<string, seq<string>>)
    ensures SortedBranch(out, branch)
  {
    out := map[];
    var todo := branch.Keys;
    while todo != {}
      invariant todo <= branch.Keys
      invariant out.Keys == branch.Keys - todo
      invariant forall c :: c in out ==> SortedListOf(out[c], branch[c])
      decreases |todo|
    {
      var c :| c in todo;
      var sorted := SortedStrings(branch[c]);
      out := out[c := sorted];
      todo := todo - {c};
    }
  }

  /** The conversion loops: every set of the structure becomes a sorted
      array. */
  method SortMenu(m: map<string, map<string, set<string>>>) returns (out: map<string, map<string, seq<string>>>)
    ensures out.Keys == m.Keys
    ensures forall g :: g in out ==> SortedBranch(out[g], m[g])
  {
    out := map[];
    var todo := m.Keys;
    while todo != {}
      invariant todo <= m.Keys
      invariant out.Keys == m.Keys - todo
      invariant forall g :: g in out ==> SortedBranch(out[g], m[g])
      decreases |todo|
    {
      var g :| g in todo;
      var branch := SortBranch(m[g]);
      out := out[g := branch];
      todo := todo - {g};
    }
  }

  /** A link of a mega menu: a subcategory, the 'All <category>' link
      (filterProducts with no subcategory), or a Featured link
      (filterAndNavigate with the gender and one flag). */
  datatype MenuLink =
    | SubcategoryLink(category: string, gender: string, subcategory: string)
    | AllLink(category: string, gender: string)
    | FeaturedLink(caption: string, gender: string, flag: Flag)

  datatype Column = Column(title: string, links: seq<MenuLink>)

  /** The subcategory links of one column, in the array's order. */
  function SubcategoryLinks(gender: string, category: string, subs: seq<string>): (r: seq<MenuLink>)
    ensures |r| == |subs|
    ensures forall i :: 0 <= i < |subs| ==> r[i] == SubcategoryLink(category, gender, subs[i])
  {
    seq(|subs|, i requires 0 <= i < |subs| => SubcategoryLink(category, gender, subs[i]))
  }

  /** One category column. */
  function CategoryColumn(gender: string, category: string, subs: seq<string>): Column {
    Column(category, SubcategoryLinks(gender, category, subs) + (if |subs| > 0 then [AllLink(category, gender)] else []))
  }

  /** A column offers every subcategory once per listing, and its 'All'
      link exactly when there are subcategories. */
  lemma CategoryColumnLinks(gender: string, category: string, subs: seq<string>)
    ensures AllLink(category, gender) in CategoryColumn(gender, category, subs).links <==> |subs| > 0
    ensures |CategoryColumn(gender, category, subs).links| == |subs| + (if |subs| > 0 then 1 else 0)
    ensures forall x :: SubcategoryLink(category, gender, x) in CategoryColumn(gender, category, subs).links <==> x in subs
  {
    var links := CategoryColumn(gender, category, subs).links;
    var sl := SubcategoryLinks(gender, category, subs);
    forall x
      ensures SubcategoryLink(category, gender, x) in links <==> x in subs
    {
      if SubcategoryLink(category, gender, x) in links {
        var i :| 0 <= i < |links| && links[i] == SubcategoryLink(category, gender, x);
        assert i < |sl|;
      }
      if x in subs {
        var i :| 0 <= i < |subs| && subs[i] == x;
        assert links[i] == sl[i];
      }
    }
  }

  /** The Featured column closing every menu. */
  function FeaturedColumn(gender: string): Column {
    Column("Featured", [
      FeaturedLink("New Releases", gender, IsNew),
      FeaturedLink("Best Sellers", gender, IsBestSeller),
      FeaturedLink("Sale", gender, HasDiscount)])
  }

  /** The columns of one menu: one per category in sorted order, then
      Featured. */
  ghost predicate MenuColumns(cols: seq<Column>, gender: string, categories: map<string, seq<string>>) {
    |cols| == |categories| + 1
    && exists keys :: ColumnsFor(cols, gender, keys, categories)
  }

  /** `cols` holds a column per entry of `keys`, the sorted category
      names, then Featured. */
  ghost predicate ColumnsFor(cols: seq<Column>, gender: string, keys: seq<string>, categories: map<string, seq<string>>) {
    SortedListOf(keys, categories.Keys)
    && |cols| == |keys| + 1
    && (forall k :: 0 <= k < |keys| ==> keys[k] in categories && cols[k] == CategoryColumn(gender, keys[k], categories[keys[k]]))
    && cols[|keys|] == FeaturedColumn(gender)
  }

  /** The `forEach` over the sorted category names: one column each. */
  method CategoryColumns(gender: string, keys: seq<string>, categories: map<string, seq<string>>)
    returns (cols: seq<Column>)
    requires forall k :: 0 <= k < |keys| ==> keys[k] in categories
    ensures |cols| == |keys|
    ensures forall k :: 0 <= k < |keys| ==> cols[k] == CategoryColumn(gender, keys[k], categories[keys[k]])
  {
    cols := [];
    var i := 0;
    while i < |keys|
      invariant 0 <= i <= |keys|
      invariant |cols| == i
      invariant forall k :: 0 <= k < i ==> cols[k] == CategoryColumn(gender, keys[k], categories[keys[k]])
    {
      cols := cols + [CategoryColumn(gender, keys[i], categories[keys[i]])];
      i := i + 1;
    }
  }

  /** updateMegaMenuForGender: without the menu's elements nothing is
      written; otherwise a column per category, in sorted key order, then
      Featured. */
  method UpdateMegaMenuForGender(gender: string, categories: map<string, seq<string>>, hasMenu: bool)
    returns (html: Option<seq<Column>>)
    ensures html.Some? <==> hasMenu
    ensures hasMenu ==> MenuColumns(html.value, gender, categories)
  {
    if !hasMenu {
      return None;
    }
    var keys := SortedStrings(categories.Keys);
    var cols := CategoryColumns(gender, keys, categories);
    SortedListCount(keys, categories.Keys);
    cols := cols + [FeaturedColumn(gender)];
    assert ColumnsFor(cols, gender, keys, categories);
    html := Some(cols);
  }

  /** The genders that have a mega menu on the page. */
  const MenuGenderNames: seq<string> := ["Men", "Women", "Kids", "Unisex"]

  /** The menu a gender gets: its branch of the structure, or no categories. */
  function BranchOrEmpty(out: map<string, map<string, seq<string>>>, g: string): map<string, seq<string>> {
    if g in out then out[g] else map[]
  }

  /** The menu of gender `g` shows the categories of its records, sorted,
      each with its sorted truthy subcategories, then Featured. */
  ghost predicate ShowsMenuOf(cols: seq<Column>, g: string, products: seq<Product>) {
    exists branch: map<string, seq<string>> ::
      MenuColumns(cols, g, branch)
      && branch.Keys == MenuCategories(products, g)
      && (forall c :: c in branch ==> SortedListOf(branch[c], MenuSubcategories(products, g, c)))
  }

  /** buildDynamicMegaMenu: with no records nothing is built; otherwise the
      structure is collected and sorted, and the four gender menus are
      rewritten (`hasMenu` says which of them are on the page). Each menu
      lists the categories of that gender's records, in sorted order, each
      with its sorted truthy subcategories. */
  method BuildDynamicMegaMenu(products: seq<Product>, hasMenu: set<string>)
    returns (menus: Option<seq<Option<seq<Column>>>>)
    ensures menus.None? <==> products == []
    ensures menus.Some? ==> |menus.value| == 4
    ensures menus.Some? ==> forall k :: 0 <= k < 4 ==>
      var g := MenuGenderNames[k];
      (menus.value[k].Some? <==> g in hasMenu)
      && (menus.value[k].Some? ==> ShowsMenuOf(menus.value[k].value, g, products))
  {
    if |products| == 0 {
      return None;
    }
    var m := CollectMenu(products);
    var out := SortMenu(m);
    var result: seq<Option<seq<Column>>> := [];
    var k := 0;
    while k < 4
      invariant 0 <= k <= 4
      invariant |result| == k
      invariant forall j :: 0 <= j < k ==>
        var g := MenuGenderNames[j];
        (result[j].Some? <==> g in hasMenu)
        && (result[j].Some? ==> ShowsMenuOf(result[j].value, g, products))
    {
      var g := MenuGenderNames[k];
      var branch := BranchOrEmpty(out, g);
      BranchMatches(m, out, products, g);
      var html := UpdateMegaMenuForGender(g, branch, g in hasMenu);
      result := result + [html];
      k := k + 1;
    }
    menus := Some(result);
  }

  /** A gender's branch (or the empty one) holds its categories and their
      sorted subcategories. */
  lemma BranchMatches(m: map<string, map<string, set<string>>>, out: map<string, map<string, seq<string>>>,
    products: seq<Product>, g: string)
    requires IsMenuStructure(m, products)
    requires out.Keys == m.Keys && forall g :: g in out ==> SortedBranch(out[g], m[g])
    ensures BranchOrEmpty(out, g).Keys == MenuCategories(products, g)
    ensures forall c :: c in BranchOrEmpty(out, g) ==>
      SortedListOf(BranchOrEmpty(out, g)[c], MenuSubcategories(products, g, c))
  {
    assert BranchOf(m, g).Keys == MenuCategories(products, g);
    forall c | c in BranchOrEmpty(out, g)
      ensures SortedListOf(BranchOrEmpty(out, g)[c], MenuSubcategories(products, g, c))
    {
      assert SubsOf(BranchOf(m, g), c) == MenuSubcategories(products, g, c);
    }
  }
}
