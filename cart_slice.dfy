/**
 * The cart slice (`src/store/slices/cartSlice.js`): a list of cart items, each a product
 * with a quantity, updated in place by the reducers, and two sum selectors. Prices are whole
 * amounts in the smallest currency unit. The `localStorage` mirror is a parameter of the
 * constructor and of `InitializeCart`; the writes to it are not modelled.
 */
module CartSlice {
  import opened JsLib

  /** A catalogue product, as `src/lib/products.js` lists them. */
  datatype Product = Product(id: int, name: string, price: int, category: string, stock: int)

  /** `{ ...product, quantity }`. */
  datatype CartItem = CartItem(product: Product, quantity: int)

  function ItemId(i: CartItem): int { i.product.id }
  function ItemQuantity(i: CartItem): int { i.quantity }
  function ItemAmount(i: CartItem): int { i.product.price * i.quantity }

  /** The invariant every reducer keeps: no product twice, and every quantity at least 1. */
  predicate ValidItems(items: seq<CartItem>) {
    && (forall i, j :: 0 <= i < j < |items| ==> items[i].product.id != items[j].product.id)
    && (forall i :: 0 <= i < |items| ==> items[i].quantity >= 1)
  }

  /** `items.findIndex(item => item.id === id)`, as an option. */
  function IndexOfId(items: seq<CartItem>, id: int): (r: Option<nat>)
    ensures r.Some? ==> r.value < |items| && items[r.value].product.id == id
    ensures r.Some? ==> forall j :: 0 <= j < r.value ==> items[j].product.id != id
    ensures r.None? <==> forall j :: 0 <= j < |items| ==> items[j].product.id != id
  {
    if items == [] then None
    else if items[0].product.id == id then Some(0)
    else
      match IndexOfId(items[1..], id)
      case None => None
      case Some(k) => Some(k + 1)
  }

  // ---------------------------------------------------------------------------
  // The reducers as functions of the item list

  /** `addToCart`: bump the quantity of the item with that id, or append the product with quantity 1. */
  function Added(items: seq<CartItem>, product: Product): seq<CartItem> {
    match IndexOfId(items, product.id)
    case Some(k) => items[k := items[k].(quantity := items[k].quantity + 1)]
    case None => items + [CartItem(product, 1)]
  }

  /** `removeFromCart`: every item with another id, in order. */
  function Removed(items: seq<CartItem>, id: int): seq<CartItem> {
    Filter(items, (i: CartItem) => i.product.id != id)
  }

  /** `updateQuantity`: a quantity of 0 or less removes the item; otherwise the first item with that id takes it. */
  function QuantitySet(items: seq<CartItem>, id: int, quantity: int): seq<CartItem> {
    if quantity <= 0 then Removed(items, id)
    else
      match IndexOfId(items, id)
      case Some(k) => items[k := items[k].(quantity := quantity)]
      case None => items
  }

  /** `selectCartTotal`: the sum of price times quantity. */
  function Total(items: seq<CartItem>): int { SumOf(items, ItemAmount) }

  /** `selectCartItemsCount`: the sum of the quantities. */
  function ItemsCount(items: seq<CartItem>): int { SumOf(items, ItemQuantity) }

  // ---------------------------------------------------------------------------
  // Properties of the reducers

  /**
   * Adding a product already in the cart raises its quantity by one and changes nothing else;
   * adding a new one appends it with quantity 1 after the unchanged items.
   */
  lemma AddedSpec(items: seq<CartItem>, product: Product)
    ensures (forall j :: 0 <= j < |items| ==> items[j].product.id != product.id) ==>
      Added(items, product) == items + [CartItem(product, 1)]
    ensures (exists j :: 0 <= j < |items| && items[j].product.id == product.id) ==>
      var r := Added(items, product);
      && |r| == |items|
      && exists k :: (&& 0 <= k < |items| && items[k].product.id == product.id
                      && r[k] == items[k].(quantity := items[k].quantity + 1)
                      && forall j :: 0 <= j < |items| && j != k ==> r[j] == items[j])
  {
    var k := IndexOfId(items, product.id);
    if k.Some? {
      var r := Added(items, product);
      assert r[k.value] == items[k.value].(quantity := items[k.value].quantity + 1);
    }
  }

  /** `addToCart` raises the item count by exactly one, and the total by the price of the item it counts. */
  lemma AddedSums(items: seq<CartItem>, product: Product)
    ensures ItemsCount(Added(items, product)) == ItemsCount(items) + 1
    ensures Total(Added(items, product))
         == Total(items) + match IndexOfId(items, product.id)
                           case Some(k) => items[k].product.price
                           case None => product.price
  {
    match IndexOfId(items, product.id)
    case Some(k) =>
      var item := items[k].(quantity := items[k].quantity + 1);
      assert Added(items, product) == items[k := item];
      SumOfUpdate(items, k, item, ItemQuantity);
      SumOfUpdate(items, k, item, ItemAmount);
      AmountOfBump(items[k]);
    case None =>
      var item := CartItem(product, 1);
      assert Added(items, product) == items + [item];
      SumOfAppend(items, [item], ItemQuantity);
      SumOfAppend(items, [item], ItemAmount);
      assert [item][..0] == [];
  }

  /** One more of an item adds its price to its amount. */
  lemma AmountOfBump(i: CartItem)
    ensures ItemAmount(i.(quantity := i.quantity + 1)) == ItemAmount(i) + i.product.price
  {
    var p, q := i.product.price, i.quantity;
    assert p * (q + 1) == p * q + p;
  }

  /** `addToCart` keeps ids unique and quantities positive. */
  lemma AddedValid(items: seq<CartItem>, product: Product)
    requires ValidItems(items)
    ensures ValidItems(Added(items, product))
  {
    var r := Added(items, product);
    if IndexOfId(items, product.id).None? {
      forall i, j | 0 <= i < j < |r| ensures r[i].product.id != r[j].product.id {
        if j == |items| {
          assert r[j].product.id == product.id && r[i] == items[i];
        }
      }
    }
  }

  /**
   * `removeFromCart` leaves no item with that id, keeps the others in order, keeps the
   * invariant, and lowers the item count by the quantities it drops.
   */
  lemma RemovedSpec(items: seq<CartItem>, id: int)
    ensures forall i :: 0 <= i < |Removed(items, id)| ==> Removed(items, id)[i].product.id != id
    ensures forall i :: 0 <= i < |items| && items[i].product.id != id ==> items[i] in Removed(items, id)
    ensures ValidItems(items) ==> ValidItems(Removed(items, id))
    ensures ItemsCount(Removed(items, id))
         == ItemsCount(items) - SumOf(Filter(items, (i: CartItem) => i.product.id == id), ItemQuantity)
  {
    SumOfFilterSplit(items, (i: CartItem) => i.product.id == id, (i: CartItem) => i.product.id != id, ItemQuantity);
    if ValidItems(items) {
      FilterKeepsValid(items, id);
    }
  }

  lemma {:induction false} FilterKeepsValid(items: seq<CartItem>, id: int)
    requires ValidItems(items)
    ensures ValidItems(Removed(items, id))
  {
    if items != [] {
      var init, x := items[..|items| - 1], items[|items| - 1];
      FilterKeepsValid(init, id);
      assert items == init + [x];
      var r := Removed(items, id);
      forall i, j | 0 <= i < j < |r| ensures r[i].product.id != r[j].product.id {
        if x.product.id != id && j == |r| - 1 {
          assert r[i] in init;
        }
      }
    }
  }

  /**
   * `updateQuantity` with a quantity of 0 or less is `removeFromCart`; with a positive one it
   * sets the quantity of the item with that id and changes nothing else, or changes nothing
   * when the id is not in the cart. Either way the invariant is kept.
   */
  lemma QuantitySetSpec(items: seq<CartItem>, id: int, quantity: int)
    ensures quantity <= 0 ==> QuantitySet(items, id, quantity) == Removed(items, id)
    ensures quantity > 0 && (forall j :: 0 <= j < |items| ==> items[j].product.id != id) ==>
      QuantitySet(items, id, quantity) == items
    ensures quantity > 0 && ValidItems(items) ==>
      var r := QuantitySet(items, id, quantity);
      && |r| == |items|
      && forall j :: 0 <= j < |items| ==>
           r[j] == if items[j].product.id == id then items[j].(quantity := quantity) else items[j]
    ensures ValidItems(items) ==> ValidItems(QuantitySet(items, id, quantity))
  {
    if quantity <= 0 {
      RemovedSpec(items, id);
    }
  }

  // ---------------------------------------------------------------------------
  // The slice

  class Cart {
    var items: seq<CartItem>

    /** `initialState`: the saved cart when there is one (`saved`), else empty. */
    constructor (saved: Option<seq<CartItem>>)
      ensures items == if saved.Some? then saved.value else []
    {
      items := if saved.Some? then saved.value else [];
    }

    method AddToCart(product: Product)
      modifies this
      ensures items == Added(old(items), product)
    {
      var k := IndexOfId(items, product.id);
      if k.Some? {
        var existing := items[k.value];
        items := items[k.value := existing.(quantity := existing.quantity + 1)];
      } else {
        items := items + [CartItem(product, 1)];
      }
    }

    method RemoveFromCart(productId: int)
      modifies this
      ensures items == Removed(old(items), productId)
    {
      items := Filter(items, (i: CartItem) => i.product.id != productId);
    }

    method UpdateQuantity(productId: int, quantity: int)
      modifies this
      ensures items == QuantitySet(old(items), productId, quantity)
    {
      if quantity <= 0 {
        items := Filter(items, (i: CartItem) => i.product.id != productId);
      } else {
        var k := IndexOfId(items, productId);
        if k.Some? {
          items := items[k.value := items[k.value].(quantity := quantity)];
        }
      }
    }

    method ClearCart()
      modifies this
      ensures items == [] && Total(items) == 0 && ItemsCount(items) == 0
    {
      items := [];
    }

    /** `initializeCart`: take the saved cart when there is one, else keep the items. */
    method InitializeCart(saved: Option<seq<CartItem>>)
      modifies this
      ensures items == if saved.Some? then saved.value else old(items)
    {
      if saved.Some? {
        items := saved.value;
      }
    }
  }
}
