/** The spreadsheet adapter (js/googleSheets.js): when mock data is used,
    how the product list is picked out of the parsed response, the retry
    schedule, and the payloads of the three submissions. The network is a
    parameter: the response each attempt gets, and whether a POST fails. */
module Sheets {
  import opened ProductData
  import opened Text
  import opened Seqs
  import Cart

  // ---------------------------------------------------------------------
  // Parsed JSON
  // ---------------------------------------------------------------------

  /** A value as `JSON.parse` returns it. Numbers are integers here; an
      object's members keep their order and have distinct keys. */
  datatype Json =
    | JNull
    | JBool(b: bool)
    | JNum(n: int)
    | JStr(s: string)
    | JArr(elems: seq<Json>)
    | JObj(members: seq<Member>)

  datatype Member = Member(key: string, value: Json)

  /** The first member named `key`. */
  function Lookup(members: seq<Member>, key: string): (r: Option<Json>)
    ensures r.Some? ==> exists i :: 0 <= i < |members| && members[i] == Member(key, r.value)
    ensures r.None? ==> forall i :: 0 <= i < |members| ==> members[i].key != key
  {
    if members == [] then None
    else if members[0].key == key then Some(members[0].value)
    else
      var r := Lookup(members[1..], key);
      assert r.Some? ==> exists i :: 0 <= i < |members| && members[i] == Member(key, r.value) by {
        if r.Some? {
          var i :| 0 <= i < |members[1..]| && members[1..][i] == Member(key, r.value);
          assert members[i + 1] == Member(key, r.value);
        }
      }
      r
  }

  /** `data.key`: a member of an object; arrays, strings, numbers and
      booleans have none of the names read here. */
  function Get(data: Json, key: string): Option<Json> {
    if data.JObj? then Lookup(data.members, key) else None
  }

  /** `Array.isArray(x)` on a property that may be missing. */
  predicate IsArray(x: Option<Json>) {
    x.Some? && x.value.JArr?
  }

  /** The `for…in` search: the first member holding a non-empty array. */
  function FirstArrayMember(members: seq<Member>): (r: Option<seq<Json>>)
    ensures r.Some? ==> r.value != [] && exists i :: 0 <= i < |members| && members[i].value == JArr(r.value)
    ensures r.None? ==> forall i :: 0 <= i < |members| ==> !(members[i].value.JArr? && members[i].value.elems != [])
  {
    if members == [] then None
    else if members[0].value.JArr? && members[0].value.elems != [] then Some(members[0].value.elems)
    else
      var r := FirstArrayMember(members[1..]);
      assert r.Some? ==> exists i :: 0 <= i < |members| && members[i].value == JArr(r.value) by {
        if r.Some? {
          var i :| 0 <= i < |members[1..]| && members[1..][i].value == JArr(r.value);
          assert members[i + 1].value == JArr(r.value);
        }
      }
      r
  }

  // ---------------------------------------------------------------------
  // Envelope selection
  // ---------------------------------------------------------------------

  /** Why a response yields no products: the sheet reported failure, no
      product list was found (or it was empty), or the body was `null`
      (reading a property of it throws). */
  datatype Rejection = SheetError | NoProducts | NullBody

  datatype Selection = Selected(products: seq<Json>) | Rejected(why: Rejection)

  /** The product list of a parsed body, by the first format that
      matches: `{success: true, data: [...]}`, then `{products: [...]}`,
      then a bare array, then `{success: false}` (an error), and otherwise
      the first member holding a non-empty array. An empty or missing list
      is an error. */
  function SelectProducts(data: Json): (r: Selection)
    ensures r.Selected? ==> r.products != []
  {
    if data.JNull? then Rejected(NullBody)
    else if Get(data, "success") == Some(JBool(true)) && IsArray(Get(data, "data")) then
      NonEmpty(Get(data, "data").value.elems)
    else if IsArray(Get(data, "products")) then NonEmpty(Get(data, "products").value.elems)
    else if data.JArr? then NonEmpty(data.elems)
    else if Get(data, "success") == Some(JBool(false)) then Rejected(SheetError)
    else if data.JObj? && FirstArrayMember(data.members).Some? then Selected(FirstArrayMember(data.members).value)
    else Rejected(NoProducts)
  }

  /** The final emptiness check on the list a format found. */
  function NonEmpty(xs: seq<Json>): Selection {
    if xs == [] then Rejected(NoProducts) else Selected(xs)
  }

  /** A selected list is always one found in the body: the body itself or
      one of its top-level members. */
  lemma SelectedFromBody(data: Json)
    requires SelectProducts(data).Selected?
    ensures var xs := SelectProducts(data).products;
      (data.JArr? && data.elems == xs)
      || (data.JObj? && exists i :: 0 <= i < |data.members| && data.members[i].value == JArr(xs))
  {
  }

  /** Format 1 comes first: a successful envelope's `data` array is taken
      whatever else the body holds. */
  lemma EnvelopeFirst(data: Json, xs: seq<Json>)
    requires Get(data, "success") == Some(JBool(true)) && Get(data, "data") == Some(JArr(xs))
    ensures SelectProducts(data) == if xs == [] then Rejected(NoProducts) else Selected(xs)
  {
  }

  /** `success: false` is an error only when no `products` array is
      present: a `products` array wins over the failure flag. */
  lemma FailureFlag(data: Json)
    requires Get(data, "success") == Some(JBool(false))
    ensures !IsArray(Get(data, "products")) ==> SelectProducts(data) == Rejected(SheetError)
    ensures IsArray(Get(data, "products")) && Get(data, "products").value.elems != [] ==>
      SelectProducts(data) == Selected(Get(data, "products").value.elems)
  {
  }

  /** An empty `data` array in a successful envelope hides a non-empty
      `products` array beside it: the response counts as having no
      products. */
  lemma EmptyEnvelopeHidesProducts()
    ensures SelectProducts(JObj([
      Member("success", JBool(true)),
      Member("data", JArr([])),
      Member("products", JArr([JNum(1)]))])) == Rejected(NoProducts)
  {
    var data := JObj([Member("success", JBool(true)), Member("data", JArr([])), Member("products", JArr([JNum(1)]))]);
    assert Get(data, "success") == Some(JBool(true));
    assert Get(data, "data") == Some(JArr([]));
  }

  /** Bodies that are neither objects nor arrays never yield products. */
  lemma ScalarBodies(data: Json)
    requires !data.JObj? && !data.JArr?
    ensures SelectProducts(data).Rejected?
  {
  }

  // ---------------------------------------------------------------------
  // fetchProducts
  // ---------------------------------------------------------------------

  /** What one GET produces: an HTTP error status, a body that is not
      JSON by content type or by parse, a network failure or time-out, or
      a parsed body. */
  datatype Response = HttpError(status: int) | NotJson | InvalidJson | NetworkFailure | Body(data: Json)

  /** The product list one attempt yields, if any. */
  function AttemptProducts(resp: Response): Selection {
    match resp
    case Body(data) => SelectProducts(data)
    case _ => Rejected(NoProducts)
  }

  /** Where the catalog's records come from. */
  datatype Source = FromSheet(products: seq<Json>) | MockData

  /** The result of fetchProducts: the records' source, the number of GET
      requests made, the waits between them (milliseconds) and whether the
      error toast was shown. */
  datatype FetchOutcome = FetchOutcome(source: Source, requests: nat, delays: seq<int>, errorToast: bool)

  /** Mock data is used, without any request, when the mock flag is on,
      the sheet is off, or the URL is missing, blank or still the
      placeholder. */
  predicate UsesMockData(useMockData: bool, useGoogleSheets: bool, url: string) {
    useMockData || !useGoogleSheets || url == "" || Trim(url) == "" || Contains(url, "YOUR_SCRIPT_ID")
  }

  /** The attempts from `retryCount` on: a usable response ends the
      search; a failure waits (retryCount + 1) seconds and tries again
      while `retryCount < maxRetries - 1`; the last failure falls back to
      mock data with a toast. `net(k)` is the response to attempt k. */
  function FetchFrom(net: nat -> Response, retryCount: nat, maxRetries: int): FetchOutcome
    decreases maxRetries - retryCount
  {
    var sel := AttemptProducts(net(retryCount));
    if sel.Selected? then FetchOutcome(FromSheet(sel.products), 1, [], false)
    else if retryCount < maxRetries - 1 then
      var rest := FetchFrom(net, retryCount + 1, maxRetries);
      FetchOutcome(rest.source, rest.requests + 1, [(retryCount + 1) * 1000] + rest.delays, rest.errorToast)
    else FetchOutcome(MockData, 1, [], true)
  }

  /** fetchProducts(retryCount, maxRetries). */
  function FetchProducts(useMockData: bool, useGoogleSheets: bool, url: string,
    net: nat -> Response, retryCount: nat, maxRetries: int): (r: FetchOutcome)
    ensures UsesMockData(useMockData, useGoogleSheets, url) ==> r == FetchOutcome(MockData, 0, [], false)
  {
    if useMockData || !useGoogleSheets then FetchOutcome(MockData, 0, [], false)
    else if url == "" || Trim(url) == "" || Contains(url, "YOUR_SCRIPT_ID") then FetchOutcome(MockData, 0, [], false)
    else FetchFrom(net, retryCount, maxRetries)
  }

  /** The retry schedule. At least one request is made and at most
      `maxRetries - retryCount` (when that is positive); the waits grow
      by one second each, the k-th being (retryCount + k + 1) seconds; the
      sheet's records are the first usable response, every earlier
      attempt having failed; mock data comes, with the toast, only after
      every allowed attempt failed. */
  lemma {:induction false} FetchFromSchedule(net: nat -> Response, retryCount: nat, maxRetries: int)
    ensures var r := FetchFrom(net, retryCount, maxRetries);
      1 <= r.requests
      && (retryCount < maxRetries ==> r.requests <= maxRetries - retryCount)
      && |r.delays| == r.requests - 1
      && (forall k :: 0 <= k < |r.delays| ==> r.delays[k] == (retryCount + k + 1) * 1000)
      && (forall k :: retryCount <= k < retryCount + r.requests - 1 ==> AttemptProducts(net(k)).Rejected?)
      && (r.errorToast <==> r.source == MockData)
      && (r.source.FromSheet? ==> AttemptProducts(net(retryCount + r.requests - 1)) == Selected(r.source.products))
      && (r.source == MockData ==>
        AttemptProducts(net(retryCount + r.requests - 1)).Rejected?
        && r.requests == (if retryCount < maxRetries then maxRetries - retryCount else 1))
    decreases maxRetries - retryCount
  {
    var sel := AttemptProducts(net(retryCount));
    if !sel.Selected? && retryCount < maxRetries - 1 {
      FetchFromSchedule(net, retryCount + 1, maxRetries);
      var rest := FetchFrom(net, retryCount + 1, maxRetries);
      var r := FetchFrom(net, retryCount, maxRetries);
      assert r.delays == [(retryCount + 1) * 1000] + rest.delays;
      forall k | 0 <= k < |r.delays|
        ensures r.delays[k] == (retryCount + k + 1) * 1000
      {
        if k > 0 {
          assert r.delays[k] == rest.delays[k - 1];
        }
      }
    }
  }

  /** With the defaults (retryCount 0, maxRetries 3) and a sheet that
      never answers usably: three requests, waits of 1 s and then 2 s
      (linear, not exponential), then mock data with one toast. */
  lemma DefaultScheduleAllFail(net: nat -> Response)
    requires forall k :: AttemptProducts(net(k)).Rejected?
    ensures FetchFrom(net, 0, 3) == FetchOutcome(MockData, 3, [1000, 2000], true)
  {
    assert AttemptProducts(net(0)).Rejected? && AttemptProducts(net(1)).Rejected?;
    assert AttemptProducts(net(2)).Rejected?;
  }

  // ---------------------------------------------------------------------
  // Mock catalog
  // ---------------------------------------------------------------------

  /** The fixed part of a mock product. */
  datatype MockBase = MockBase(name: string, brand: string, category: string, subcategory: string)

  const MockBases: seq<MockBase> := [
    MockBase("Air Max 90", "Nike", "Shoes", "Running"),
    MockBase("Air Force 1", "Nike", "Shoes", "Casual"),
    MockBase("Ultraboost 22", "Adidas", "Shoes", "Running"),
    MockBase("Suede Classic", "Puma", "Shoes", "Lifestyle"),
    MockBase("574 Core", "New Balance", "Shoes", "Casual"),
    MockBase("Chuck Taylor", "Converse", "Shoes", "Casual"),
    MockBase("Old Skool", "Vans", "Shoes", "Lifestyle"),
    MockBase("LeBron 20", "Nike", "Shoes", "Basketball"),
    MockBase("Metcon 8", "Nike", "Shoes", "Training"),
    MockBase("Tech Fleece Hoodie", "Nike", "Apparel", "Hoodies"),
    MockBase("Training Jacket", "Adidas", "Apparel", "Jackets"),
    MockBase("Running Shorts", "Puma", "Apparel", "Shorts"),
    MockBase("Sports Bra", "Nike", "Apparel", "Sports Bras"),
    MockBase("Yoga Leggings", "Adidas", "Apparel", "Leggings"),
    MockBase("Training T-Shirt", "Puma", "Apparel", "Tops"),
    MockBase("Backpack Elite", "Nike", "Accessories", "Bags"),
    MockBase("Sport Socks", "Adidas", "Accessories", "Socks")]

  const MockColors: seq<string> := ["Black", "White", "Red", "Blue", "Navy", "Gray"]

  /** The number of mock records: one per base and colour. */
  const MockCount := 102

  /** The random choices made for one mock record. */
  datatype MockDraw = MockDraw(price: int, discount: int, gender: string, image: string,
    images: seq<string>, isNew: bool, isFeatured: bool, isBestSeller: bool, dateAdded: int)

  function Power10(w: nat): nat {
    if w == 0 then 1 else 10 * Power10(w - 1)
  }

  function DigitChar(d: nat): char
    requires d < 10
  {
    ('0' as int + d) as char
  }

  /** The last `w` decimal digits of n, zero-padded on the left: for
      n < 10^w this is `String(n).padStart(w, '0')`. */
  function Padded(n: nat, w: nat): (r: string)
    ensures |r| == w
  {
    if w == 0 then [] else Padded(n / 10, w - 1) + [DigitChar(n % 10)]
  }

  /** Different numbers below 10^w have different padded forms. */
  lemma {:induction false} PaddedInjective(m: nat, n: nat, w: nat)
    requires m < Power10(w) && n < Power10(w) && Padded(m, w) == Padded(n, w)
    ensures m == n
  {
    if w > 0 {
      var pm, pn := Padded(m, w), Padded(n, w);
      assert pm[..w - 1] == Padded(m / 10, w - 1) && pn[..w - 1] == Padded(n / 10, w - 1);
      assert DigitChar(m % 10) == pm[w - 1] == pn[w - 1] == DigitChar(n % 10);
      PaddedInjective(m / 10, n / 10, w - 1);
    }
  }

  /** `PROD-` and the counter padded to four digits. */
  function MockId(n: nat): string {
    "PROD-" + Padded(n, 4)
  }

  /** The record made for base `k / 6` in colour `k % 6`, the (k+1)-th
      generated. It has no `productId`. */
  function MockRecord(k: nat, draw: MockDraw): Product
    requires k < MockCount
  {
    var base := MockBases[k / 6];
    Product(MockId(k + 1), "", base.name, base.brand, base.category, base.subcategory, draw.gender,
      draw.price, draw.discount, MockColors[k % 6],
      if base.category == "Shoes" then ["7", "8", "9", "10", "11", "12"] else ["S", "M", "L", "XL", "XXL"],
      draw.image, ImageArray(draw.images), draw.isNew, draw.isFeatured, draw.isBestSeller, draw.dateAdded)
  }

  /** getMockProducts, the random choices of record k being `draws(k)`. */
  function MockProducts(draws: nat -> MockDraw): (r: seq<Product>)
    ensures |r| == MockCount
    ensures forall k :: 0 <= k < MockCount ==> r[k] == MockRecord(k, draws(k))
  {
    seq(MockCount, k requires 0 <= k < MockCount => MockRecord(k, draws(k)))
  }

  /** A mock record is keyed by its own id, `PROD-` and its number. */
  lemma MockRecordKey(draws: nat -> MockDraw, k: nat)
    requires k < MockCount
    ensures var p := MockProducts(draws)[k];
      GroupKey(p) == p.id == MockId(k + 1) && p.name == MockBases[k / 6].name
  {
    assert MockProducts(draws)[k] == MockRecord(k, draws(k));
  }

  /** Mock ids are distinct. */
  lemma MockIdsDistinct(m: nat, n: nat)
    requires m < 10000 && n < 10000 && m != n
    ensures MockId(m) != MockId(n)
  {
    if MockId(m) == MockId(n) {
      assert MockId(m)[5..] == Padded(m, 4) && MockId(n)[5..] == Padded(n, 4);
      PaddedInjective(m, n, 4);
    }
  }

  lemma MockKeysDiffer(draws: nat -> MockDraw, i: nat, j: nat)
    requires i < j < MockCount
    ensures GroupKey(MockProducts(draws)[i]) != GroupKey(MockProducts(draws)[j])
  {
    MockRecordKey(draws, i);
    MockRecordKey(draws, j);
    MockIdsDistinct(i + 1, j + 1);
  }

  /** The six colours of a base share its name, as variations are meant
      to, but no mock record has a `productId`, so each is keyed by its own
      id: every record forms its own group and there are 102 groups, not
      17. */
  lemma MockRecordsUngrouped(draws: nat -> MockDraw)
    ensures var r := MockProducts(draws);
      (forall k :: 0 <= k < MockCount ==> GroupKey(r[k]) == r[k].id && r[k].name == MockBases[k / 6].name)
      && DistinctKeys(r, GroupKey)
      && |KeysOf(r, GroupKey)| == MockCount
  {
    var r := MockProducts(draws);
    forall k | 0 <= k < MockCount
      ensures GroupKey(r[k]) == r[k].id && r[k].name == MockBases[k / 6].name
    {
      MockRecordKey(draws, k);
    }
    forall i, j | 0 <= i < j < |r|
      ensures GroupKey(r[i]) != GroupKey(r[j])
    {
      MockKeysDiffer(draws, i, j);
    }
    DistinctKeysCount(r, GroupKey);
  }

  // ---------------------------------------------------------------------
  // Submissions
  // ---------------------------------------------------------------------

  /** One line of a cart inquiry: `{name, color, size, quantity, price}`. */
  datatype InquiryLine = InquiryLine(name: string, color: string, size: string, quantity: int, price: int)

  /** The body of a POST. */
  datatype Payload =
    | ContactPayload(name: string, email: string, phone: string, subject: string, message: string)
    | NewsletterPayload(email: string)
    | CartPayload(name: string, email: string, phone: string, message: string,
        cartItems: seq<InquiryLine>, total: int)

  /** The `action` field of a payload. */
  function Action(p: Payload): string {
    match p
    case ContactPayload(_, _, _, _, _) => "submitContact"
    case NewsletterPayload(_) => "submitNewsletter"
    case CartPayload(_, _, _, _, _, _) => "submitCartInquiry"
  }

  /** What a submission returns (`{success}`) and the request it sent, if
      any. A no-cors POST cannot be read, so it succeeds unless the request
      itself fails. */
  datatype Submission = Submission(success: bool, sent: Option<Payload>)

  /** POST `p` when the sheet is on; report success without a request when
      it is off. */
  function Post(useGoogleSheets: bool, p: Payload, postFails: bool): Submission {
    if !useGoogleSheets then Submission(true, None)
    else Submission(!postFails, Some(p))
  }

  /** submitContactForm. An absent phone is the empty string. */
  function SubmitContactForm(useGoogleSheets: bool, name: string, email: string, phone: string,
    subject: string, message: string, postFails: bool): Submission
  {
    Post(useGoogleSheets, ContactPayload(name, email, phone, subject, message), postFails)
  }

  /** submitNewsletter. */
  function SubmitNewsletter(useGoogleSheets: bool, email: string, postFails: bool): Submission {
    Post(useGoogleSheets, NewsletterPayload(email), postFails)
  }

  /** `items.map(...)`: the inquiry lines, in cart order. */
  function InquiryLines(items: seq<Cart.CartItem>): (r: seq<InquiryLine>)
    ensures |r| == |items|
  {
    if items == [] then []
    else
      var last := items[|items| - 1];
      InquiryLines(items[..|items| - 1]) + [InquiryLine(last.name, last.color, last.size, last.quantity, last.price)]
  }

  /** The inquiry's total as the lines state it. */
  function LinesTotal(lines: seq<InquiryLine>): int {
    if lines == [] then 0 else LinesTotal(lines[..|lines| - 1]) + lines[|lines| - 1].price * lines[|lines| - 1].quantity
  }

  /** submitCartInquiry: the lines and `items.reduce(sum + price *
      quantity, 0)`, which is the cart's own total. */
  function SubmitCartInquiry(useGoogleSheets: bool, items: seq<Cart.CartItem>,
    name: string, email: string, phone: string, message: string, postFails: bool): Submission
  {
    Post(useGoogleSheets, CartPayload(name, email, phone, message, InquiryLines(items), Cart.Total(items)), postFails)
  }

  /** Each inquiry line carries its cart line's name, colour, size,
      quantity and price, in cart order. */
  lemma {:induction false} InquiryLinesProject(items: seq<Cart.CartItem>)
    ensures forall i :: 0 <= i < |items| ==>
      InquiryLines(items)[i] == InquiryLine(items[i].name, items[i].color, items[i].size, items[i].quantity, items[i].price)
  {
    if items != [] {
      InquiryLinesProject(items[..|items| - 1]);
    }
  }

  /** The payload is consistent: its total is the sum over its own lines,
      and equals the cart's total shown to the customer. */
  lemma {:induction false} InquiryTotal(items: seq<Cart.CartItem>)
    ensures LinesTotal(InquiryLines(items)) == Cart.Total(items)
  {
    if items != [] {
      var init := items[..|items| - 1];
      InquiryTotal(init);
      var lines := InquiryLines(items);
      assert lines[..|lines| - 1] == InquiryLines(init);
    }
  }

  /** With the sheet off every submission reports success and sends
      nothing; with it on, each sends its payload under its action and
      succeeds exactly when the POST goes through. */
  lemma Submissions(useGoogleSheets: bool, items: seq<Cart.CartItem>, name: string, email: string,
    phone: string, subject: string, message: string, postFails: bool)
    ensures !useGoogleSheets ==>
      SubmitContactForm(useGoogleSheets, name, email, phone, subject, message, postFails) == Submission(true, None)
      && SubmitNewsletter(useGoogleSheets, email, postFails) == Submission(true, None)
      && SubmitCartInquiry(useGoogleSheets, items, name, email, phone, message, postFails) == Submission(true, None)
    ensures useGoogleSheets ==>
      var c := SubmitContactForm(useGoogleSheets, name, email, phone, subject, message, postFails);
      var n := SubmitNewsletter(useGoogleSheets, email, postFails);
      var q := SubmitCartInquiry(useGoogleSheets, items, name, email, phone, message, postFails);
      c.success == !postFails && n.success == !postFails && q.success == !postFails
      && c.sent.Some? && Action(c.sent.value) == "submitContact"
      && n.sent.Some? && Action(n.sent.value) == "submitNewsletter"
      && q.sent.Some? && Action(q.sent.value) == "submitCartInquiry"
      && q.sent.value.total == LinesTotal(q.sent.value.cartItems)
  {
    InquiryTotal(items);
  }
}
