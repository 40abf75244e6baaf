/** The shopping cart (js/cart.js): line items keyed by variation id and size,
    merged on add, dropped when their quantity is set to zero or less, totals
    as reductions, and every mutation written through to local storage. */
module Cart {
  import opened ProductData

  /** One cart line. A missing size is the empty string. */
  datatype CartItem = CartItem(
    id: string,
    productId: string,
    name: string,
    price: int,
    image: string,
    size: string,
    color: string,
    category: string,
    quantity: int)

  /** `size || 'default'`. */
  function SizeLabel(size: string): string {
    if size == "" then "default" else size
  }

  /** The line id `${product.id}-${size || 'default'}`. */
  function LineKey(productId: string, size: string): string {
    productId + "-" + SizeLabel(size)
  }

  /** For one variation, two sizes share a line exactly when their labels
      agree; in particular no size and the size "default" share one. */
  lemma LineKeySameVariation(productId: string, s1: string, s2: string)
    ensures LineKey(productId, s1) == LineKey(productId, s2) <==> SizeLabel(s1) == SizeLabel(s2)
    ensures LineKey(productId, "") == LineKey(productId, "default")
  {
    var prefix := productId + "-";
    if LineKey(productId, s1) == LineKey(productId, s2) {
      assert SizeLabel(s1) == LineKey(productId, s1)[|prefix|..];
      assert SizeLabel(s2) == LineKey(productId, s2)[|prefix|..];
    }
  }

  /** The key is not injective: a variation id that contains '-' can share a
      line id with another variation and size. */
  lemma LineKeyAmbiguous()
    ensures LineKey("a-b", "c") == LineKey("a", "b-c")
  {
  }

  /** The value of one line in getTotal. */
  function LineTotal(line: CartItem): int {
    line.price * line.quantity
  }

  /** getTotal: the sum of price times quantity over the lines, in order. */
  function Total(items: seq<CartItem>): int {
    if items == [] then 0 else Total(items[..|items| - 1]) + LineTotal(items[|items| - 1])
  }

  /** getItemCount: the sum of the quantities. */
  function Count(items: seq<CartItem>): int {
    if items == [] then 0 else Count(items[..|items| - 1]) + items[|items| - 1].quantity
  }

  /** No two lines share an id. */
  predicate UniqueIds(items: seq<CartItem>) {
    forall i, j :: 0 <= i < j < |items| ==> items[i].id != items[j].id
  }

  /** Every line holds at least one unit. */
  predicate AllPositive(items: seq<CartItem>) {
    forall i :: 0 <= i < |items| ==> items[i].quantity >= 1
  }

  /** `items.find(item => item.id === id)`, as the index of the first line
      with that id, or |items| when there is none. */
  function FindLine(items: seq<CartItem>, id: string): (k: nat)
    ensures k <= |items|
    ensures k < |items| ==> items[k].id == id
    ensures forall j :: 0 <= j < k ==> items[j].id != id
  {
    if items == [] then 0 else if items[0].id == id then 0 else 1 + FindLine(items[1..], id)
  }

  /** The line addItem pushes for a variation and size not yet in the cart. */
  function NewLine(product: Product, size: string): CartItem {
    CartItem(LineKey(product.id, size), product.id, product.name, product.price, product.image,
             size, product.color, product.category, 1)
  }

  /** `existingItem.quantity += 1`. */
  function Bump(line: CartItem): CartItem {
    line.(quantity := line.quantity + 1)
  }

  /** `item.quantity = quantity`. */
  function WithQuantity(line: CartItem, quantity: int): CartItem {
    line.(quantity := quantity)
  }

  /** The lines after addItem(product, size). */
  function Added(items: seq<CartItem>, product: Product, size: string): seq<CartItem> {
    var k := FindLine(items, LineKey(product.id, size));
    if k < |items| then items[k := Bump(items[k])]
    else items + [NewLine(product, size)]
  }

  /** The lines after removeItem(id): `filter(item => item.id !== id)`. */
  function Removed(items: seq<CartItem>, id: string): (r: seq<CartItem>)
    ensures |r| <= |items|
  {
    if items == [] then []
    else
      var init, last := items[..|items| - 1], items[|items| - 1];
      assert items == init + [last];
      Removed(init, id) + (if last.id != id then [last] else [])
  }

  /** The lines after updateQuantity(id, quantity). */
  function Updated(items: seq<CartItem>, id: string, quantity: int): seq<CartItem> {
    var k := FindLine(items, id);
    if k == |items| then items
    else if quantity <= 0 then Removed(items, id)
    else items[k := WithQuantity(items[k], quantity)]
  }

  // ---------------------------------------------------------------------
  // Sums

  /** Changing one line changes the total and the count by the difference
      of that line alone. */
  lemma {:induction false} SumsUpdate(items: seq<CartItem>, k: nat, x: CartItem)
    requires k < |items|
    ensures Total(items[k := x]) == Total(items) - LineTotal(items[k]) + LineTotal(x)
    ensures Count(items[k := x]) == Count(items) - items[k].quantity + x.quantity
  {
    var r := items[k := x];
    var n := |items| - 1;
    if k < n {
      assert r[..n] == items[..n][k := x];
      SumsUpdate(items[..n], k, x);
    } else {
      assert r[..n] == items[..n];
    }
  }

  lemma SumsAppend(items: seq<CartItem>, x: CartItem)
    ensures Total(items + [x]) == Total(items) + LineTotal(x)
    ensures Count(items + [x]) == Count(items) + x.quantity
  {
    assert (items + [x])[..|items|] == items;
  }

  /** With every quantity at least one, the item count is at least the
      number of lines: the badge shows a count exactly when the cart has a
      line. */
  lemma {:induction false} CountAtLeastLines(items: seq<CartItem>)
    requires AllPositive(items)
    ensures Count(items) >= |items|
    ensures Count(items) > 0 <==> items != []
  {
    if items != [] {
      CountAtLeastLines(items[..|items| - 1]);
    }
  }

  // ---------------------------------------------------------------------
  // addItem

  /** A variation and size already in the cart: the first line with that key
      gains one unit, and nothing else changes. */
  lemma AddedMerges(items: seq<CartItem>, product: Product, size: string, k: nat)
    requires k < |items| && items[k].id == LineKey(product.id, size)
    requires forall j :: 0 <= j < k ==> items[j].id != LineKey(product.id, size)
    ensures |Added(items, product, size)| == |items|
    ensures Added(items, product, size)[k] == Bump(items[k])
    ensures forall j :: 0 <= j < |items| && j != k ==> Added(items, product, size)[j] == items[j]
  {
  }

  /** A new variation and size: one line with quantity 1 is appended. */
  lemma AddedAppends(items: seq<CartItem>, product: Product, size: string)
    requires forall j :: 0 <= j < |items| ==> items[j].id != LineKey(product.id, size)
    ensures Added(items, product, size) == items + [NewLine(product, size)]
    ensures Added(items, product, size)[|items|].quantity == 1
  {
  }

  /** Adding the same variation and size twice to a cart without it gives
      one new line with quantity 2. */
  lemma AddedTwice(items: seq<CartItem>, product: Product, size: string)
    requires forall j :: 0 <= j < |items| ==> items[j].id != LineKey(product.id, size)
    ensures Added(Added(items, product, size), product, size)
      == items + [NewLine(product, size).(quantity := 2)]
  {
    var once := Added(items, product, size);
    AddedAppends(items, product, size);
    AddedMerges(once, product, size, |items|);
  }

  lemma LineTotalBump(line: CartItem)
    ensures LineTotal(Bump(line)) == LineTotal(line) + line.price
  {
    calc {
      LineTotal(Bump(line));
      line.price * (line.quantity + 1);
      line.price * line.quantity + line.price;
    }
  }

  /** addItem adds one to the count and, to the total, the price of the line
      it touches: the stored line's price when the line exists, the
      product's price when it is new. */
  lemma AddedSums(items: seq<CartItem>, product: Product, size: string)
    ensures var k := FindLine(items, LineKey(product.id, size));
      Total(Added(items, product, size))
        == Total(items) + (if k < |items| then items[k].price else product.price)
    ensures Count(Added(items, product, size)) == Count(items) + 1
  {
    var k := FindLine(items, LineKey(product.id, size));
    if k < |items| {
      SumsBump(items, k);
    } else {
      var line := NewLine(product, size);
      SumsAppend(items, line);
      assert LineTotal(line) == product.price;
    }
  }

  /** One more unit on line k adds that line's price to the total. */
  lemma SumsBump(items: seq<CartItem>, k: nat)
    requires k < |items|
    ensures Total(items[k := Bump(items[k])]) == Total(items) + items[k].price
    ensures Count(items[k := Bump(items[k])]) == Count(items) + 1
  {
    var line := Bump(items[k]);
    LineTotalBump(items[k]);
    SumsUpdate(items, k, line);
    assert Total(items[k := line]) == Total(items) - LineTotal(items[k]) + LineTotal(line);
  }

  /** addItem keeps line ids unique and every quantity at least one. */
  lemma AddedKeepsInvariant(items: seq<CartItem>, product: Product, size: string)
    requires UniqueIds(items) && AllPositive(items)
    ensures UniqueIds(Added(items, product, size)) && AllPositive(Added(items, product, size))
  {
  }

  // ---------------------------------------------------------------------
  // removeItem and updateQuantity

  /** Removing an id that no line carries changes nothing. */
  lemma {:induction false} RemovedAbsent(items: seq<CartItem>, id: string)
    requires forall j :: 0 <= j < |items| ==> items[j].id != id
    ensures Removed(items, id) == items
  {
    if items != [] {
      RemovedAbsent(items[..|items| - 1], id);
      assert items == items[..|items| - 1] + [items[|items| - 1]];
    }
  }

  /** removeItem keeps exactly the lines whose id differs. */
  lemma {:induction false} RemovedMembers(items: seq<CartItem>, id: string)
    ensures forall x :: x in Removed(items, id) <==> x in items && x.id != id
  {
    if items != [] {
      var init, last := items[..|items| - 1], items[|items| - 1];
      RemovedMembers(init, id);
      assert items == init + [last];
    }
  }

  /** With unique ids, removeItem of a present line drops exactly that line
      and keeps the others in their order. */
  lemma {:induction false} RemovedDropsLine(items: seq<CartItem>, id: string, k: nat)
    requires UniqueIds(items) && k < |items| && items[k].id == id
    ensures Removed(items, id) == items[..k] + items[k + 1..]
  {
    var init, last := items[..|items| - 1], items[|items| - 1];
    assert forall j :: 0 <= j < |init| && j != k ==> init[j].id != id;
    if k == |items| - 1 {
      RemovedAbsent(init, id);
      assert items[..k] + items[k + 1..] == init;
    } else {
      assert UniqueIds(init);
      RemovedDropsLine(init, id, k);
      assert last.id != id;
      assert Removed(items, id) == Removed(init, id) + [last];
      DropThenAppend(init, last, k);
    }
  }

  lemma DropThenAppend<T>(init: seq<T>, last: T, k: nat)
    requires k < |init|
    ensures init[..k] + init[k + 1..] + [last] == (init + [last])[..k] + (init + [last])[k + 1..]
  {
    assert (init + [last])[..k] == init[..k];
    assert (init + [last])[k + 1..] == init[k + 1..] + [last];
  }

  /** removeItem keeps line ids unique and every quantity at least one. */
  lemma {:induction false} RemovedKeepsInvariant(items: seq<CartItem>, id: string)
    requires UniqueIds(items) && AllPositive(items)
    ensures UniqueIds(Removed(items, id)) && AllPositive(Removed(items, id))
  {
    if items != [] {
      var init, last := items[..|items| - 1], items[|items| - 1];
      RemovedKeepsInvariant(init, id);
      RemovedMembers(init, id);
      var r' := Removed(init, id);
      forall x | x in r'
        ensures x.id != last.id
      {
        var a :| 0 <= a < |init| && init[a] == x;
        assert items[a] == x;
      }
    }
  }

  /** With unique ids, removing a present line takes its value off the total
      and its quantity off the count. */
  lemma {:induction false} RemovedSums(items: seq<CartItem>, id: string, k: nat)
    requires UniqueIds(items) && k < |items| && items[k].id == id
    ensures Total(Removed(items, id)) == Total(items) - LineTotal(items[k])
    ensures Count(Removed(items, id)) == Count(items) - items[k].quantity
  {
    var init, last := items[..|items| - 1], items[|items| - 1];
    assert forall j :: 0 <= j < |init| && j != k ==> init[j].id != id;
    if k == |items| - 1 {
      RemovedAbsent(init, id);
      assert Removed(items, id) == init;
      assert Total(items) == Total(init) + LineTotal(items[k]);
    } else {
      assert UniqueIds(init);
      RemovedSums(init, id, k);
      var r' := Removed(init, id);
      assert last.id != id;
      assert (r' + [last])[..|r'|] == r';
    }
  }

  /** updateQuantity with an id no line carries changes nothing. */
  lemma UpdatedUnknown(items: seq<CartItem>, id: string, quantity: int)
    requires forall j :: 0 <= j < |items| ==> items[j].id != id
    ensures Updated(items, id, quantity) == items
  {
  }

  /** updateQuantity with a positive quantity sets, not increments, the
      quantity of the first line with that id and changes nothing else. */
  lemma UpdatedSets(items: seq<CartItem>, id: string, quantity: int, k: nat)
    requires k < |items| && items[k].id == id && quantity > 0
    requires forall j :: 0 <= j < k ==> items[j].id != id
    ensures |Updated(items, id, quantity)| == |items|
    ensures Updated(items, id, quantity)[k] == WithQuantity(items[k], quantity)
    ensures forall j :: 0 <= j < |items| && j != k ==> Updated(items, id, quantity)[j] == items[j]
  {
  }

  /** updateQuantity with zero or less on a present id removes every line
      with that id. */
  lemma UpdatedRemoves(items: seq<CartItem>, id: string, quantity: int, k: nat)
    requires k < |items| && items[k].id == id && quantity <= 0
    ensures Updated(items, id, quantity) == Removed(items, id)
    ensures forall x :: x in Updated(items, id, quantity) <==> x in items && x.id != id
  {
    RemovedMembers(items, id);
  }

  /** updateQuantity keeps line ids unique and every quantity at least one. */
  lemma UpdatedKeepsInvariant(items: seq<CartItem>, id: string, quantity: int)
    requires UniqueIds(items) && AllPositive(items)
    ensures UniqueIds(Updated(items, id, quantity)) && AllPositive(Updated(items, id, quantity))
  {
    RemovedKeepsInvariant(items, id);
  }

  // ---------------------------------------------------------------------
  // The cart object

  /** The methods of ShoppingCart that change `items`, plus the copy of the
      cart that local storage holds under the cart key. */
  class ShoppingCart {
    var items: seq<CartItem>
    /** What Storage.get would return for the cart key; None when nothing
        readable is stored. */
    ghost var persisted: Option<seq<CartItem>>

    /** The lines are well formed: ids unique, quantities at least one. */
    ghost predicate Valid()
      reads this`items
    {
      UniqueIds(items) && AllPositive(items)
    }

    /** loadCart: the stored lines, or an empty cart when nothing is stored;
        the constructor does not write back. */
    constructor (stored: Option<seq<CartItem>>)
      ensures items == (if stored.Some? then stored.value else [])
      ensures persisted == stored
    {
      items := if stored.Some? then stored.value else [];
      persisted := stored;
    }

    /** saveCart. */
    method SaveCart()
      modifies this`persisted
      ensures persisted == Some(items)
    {
      persisted := Some(items);
    }

    method AddItem(product: Product, size: string)
      modifies this
      ensures items == Added(old(items), product, size)
      ensures persisted == Some(items)
      ensures old(Valid()) ==> Valid()
    {
      if Valid() {
        AddedKeepsInvariant(items, product, size);
      }
      var key := LineKey(product.id, size);
      var k := FindLine(items, key);
      if k < |items| {
        items := items[k := Bump(items[k])];
      } else {
        items := items + [NewLine(product, size)];
      }
      SaveCart();
    }

    method RemoveItem(id: string)
      modifies this
      ensures items == Removed(old(items), id)
      ensures persisted == Some(items)
      ensures old(Valid()) ==> Valid()
    {
      if Valid() {
        RemovedKeepsInvariant(items, id);
      }
      items := Removed(items, id);
      SaveCart();
    }

    /** An unknown id neither changes the lines nor writes to storage. */
    method UpdateQuantity(id: string, quantity: int)
      modifies this
      ensures items == Updated(old(items), id, quantity)
      ensures FindLine(old(items), id) == |old(items)| ==> persisted == old(persisted)
      ensures FindLine(old(items), id) < |old(items)| ==> persisted == Some(items)
      ensures old(Valid()) ==> Valid()
    {
      if Valid() {
        UpdatedKeepsInvariant(items, id, quantity);
      }
      var k := FindLine(items, id);
      if k < |items| {
        if quantity <= 0 {
          RemoveItem(id);
        } else {
          items := items[k := WithQuantity(items[k], quantity)];
          SaveCart();
        }
      }
    }

    method ClearCart()
      modifies this
      ensures items == [] && persisted == Some([])
      ensures Total(items) == 0 && Count(items) == 0
    {
      items := [];
      SaveCart();
    }

    /** getTotal: `reduce` over the lines. */
    method GetTotal() returns (sum: int)
      ensures sum == Total(items)
    {
      sum := 0;
      var i := 0;
      while i < |items|
        invariant i <= |items|
        invariant sum == Total(items[..i])
      {
        assert items[..i + 1][..i] == items[..i];
        sum := sum + items[i].price * items[i].quantity;
        i := i + 1;
      }
      assert items[..i] == items;
    }

    /** getItemCount: `reduce` over the quantities. */
    method GetItemCount() returns (count: int)
      ensures count == Count(items)
      ensures Valid() ==> (count > 0 <==> items != [])
    {
      count := 0;
      var i := 0;
      while i < |items|
        invariant i <= |items|
        invariant count == Count(items[..i])
      {
        assert items[..i + 1][..i] == items[..i];
        count := count + items[i].quantity;
        i := i + 1;
      }
      assert items[..i] == items;
      if Valid() {
        CountAtLeastLines(items);
      }
    }
  }
}
