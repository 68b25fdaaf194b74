/**
 * The product page of the app router (`src/app/products/page.jsx`): the product is looked up
 * in the static catalogue by the number in the path, its quantity picker never goes below 1,
 * "Add to cart" dispatches `addToCart` once per unit, and up to four products of the same
 * category are suggested. The catalogue (`src/lib/products.js`) is the parameter `catalogue`.
 */
module ProductRoute {
  import opened JsLib
  import opened CartSlice

  // ---------------------------------------------------------------------------
  // Adding several units

  /** The cart after `addToCart(product)` is dispatched `n` times. */
  function AddedTimes(items: seq<CartItem>, product: Product, n: nat): seq<CartItem> {
    if n == 0 then items else Added(AddedTimes(items, product, n - 1), product)
  }

  /** The unit price the cart charges for the product: that of the item already there, else the product's. */
  function UnitPrice(items: seq<CartItem>, product: Product): int {
    match IndexOfId(items, product.id)
    case Some(k) => items[k].product.price
    case None => product.price
  }

  /** The quantity of the product in the cart, 0 when absent. */
  function QuantityOf(items: seq<CartItem>, id: int): int {
    match IndexOfId(items, id)
    case Some(k) => items[k].quantity
    case None => 0
  }

  /** The first item with the id is the one `IndexOfId` finds. */
  lemma IndexOfIdFirst(items: seq<CartItem>, id: int, j: nat)
    requires j < |items| && items[j].product.id == id
    requires forall i :: 0 <= i < j ==> items[i].product.id != id
    ensures IndexOfId(items, id) == Some(j)
  {
  }

  /** Two carts whose items carry the same ids in the same places find every id at the same place. */
  lemma IndexOfIdSameIds(a: seq<CartItem>, b: seq<CartItem>, id: int)
    requires |a| == |b| && forall i :: 0 <= i < |a| ==> a[i].product.id == b[i].product.id
    ensures IndexOfId(a, id) == IndexOfId(b, id)
  {
    if IndexOfId(a, id).Some? {
      IndexOfIdFirst(b, id, IndexOfId(a, id).value);
    }
  }

  /** Appending an item does not move the ids already in the cart. */
  lemma IndexOfIdAppend(items: seq<CartItem>, item: CartItem, id: int)
    ensures IndexOfId(items, id).Some? ==> IndexOfId(items + [item], id) == IndexOfId(items, id)
    ensures IndexOfId(items, id).None? && item.product.id == id ==> IndexOfId(items + [item], id) == Some(|items|)
    ensures IndexOfId(items, id).None? && item.product.id != id ==> IndexOfId(items + [item], id).None?
  {
    var r := items + [item];
    if IndexOfId(items, id).Some? {
      IndexOfIdFirst(r, id, IndexOfId(items, id).value);
    } else if item.product.id == id {
      IndexOfIdFirst(r, id, |items|);
    }
  }

  /** One `addToCart` keeps the unit price, raises the product's quantity by one, and leaves other products' quantities alone. */
  lemma AddedOnce(items: seq<CartItem>, product: Product, other: int)
    ensures UnitPrice(Added(items, product), product) == UnitPrice(items, product)
    ensures QuantityOf(Added(items, product), product.id) == QuantityOf(items, product.id) + 1
    ensures other != product.id ==> QuantityOf(Added(items, product), other) == QuantityOf(items, other)
  {
    var r := Added(items, product);
    match IndexOfId(items, product.id)
    case Some(k) =>
      assert forall i :: 0 <= i < |r| ==> r[i].product == items[i].product;
      IndexOfIdSameIds(r, items, product.id);
      IndexOfIdSameIds(r, items, other);
    case None =>
      IndexOfIdAppend(items, CartItem(product, 1), product.id);
      IndexOfIdAppend(items, CartItem(product, 1), other);
  }

  /**
   * Adding `n` units raises the cart's item count by `n` and its total by `n` times the unit
   * price, raises the product's quantity by `n` and no other product's, and keeps the cart's
   * ids unique and its quantities positive.
   */
  lemma AddedTimesSpec(items: seq<CartItem>, product: Product, n: nat, other: int)
    ensures ItemsCount(AddedTimes(items, product, n)) == ItemsCount(items) + n
    ensures UnitPrice(AddedTimes(items, product, n), product) == UnitPrice(items, product)
    ensures Total(AddedTimes(items, product, n)) == Total(items) + n * UnitPrice(items, product)
    ensures QuantityOf(AddedTimes(items, product, n), product.id) == QuantityOf(items, product.id) + n
    ensures other != product.id ==> QuantityOf(AddedTimes(items, product, n), other) == QuantityOf(items, other)
    ensures ValidItems(items) ==> ValidItems(AddedTimes(items, product, n))
  {
    AddedTimesCount(items, product, n);
    AddedTimesTotal(items, product, n);
    AddedTimesQuantity(items, product, n, other);
    if ValidItems(items) {
      AddedTimesValid(items, product, n);
    }
  }

  lemma {:induction false} AddedTimesCount(items: seq<CartItem>, product: Product, n: nat)
    ensures ItemsCount(AddedTimes(items, product, n)) == ItemsCount(items) + n
  {
    if n > 0 {
      var before := AddedTimes(items, product, n - 1);
      AddedTimesCount(items, product, n - 1);
      assert AddedTimes(items, product, n) == Added(before, product);
      AddedCount(before, product);
    }
  }

  lemma {:induction false} AddedTimesTotal(items: seq<CartItem>, product: Product, n: nat)
    ensures UnitPrice(AddedTimes(items, product, n), product) == UnitPrice(items, product)
    ensures Total(AddedTimes(items, product, n)) == Total(items) + n * UnitPrice(items, product)
  {
    if n > 0 {
      var before := AddedTimes(items, product, n - 1);
      AddedTimesTotal(items, product, n - 1);
      assert AddedTimes(items, product, n) == Added(before, product);
      AddedUnitPrice(before, product);
      AddedTotal(before, product);
      MulStep(n, UnitPrice(items, product));
    }
  }

  lemma {:induction false} AddedTimesQuantity(items: seq<CartItem>, product: Product, n: nat, other: int)
    ensures QuantityOf(AddedTimes(items, product, n), product.id) == QuantityOf(items, product.id) + n
    ensures other != product.id ==> QuantityOf(AddedTimes(items, product, n), other) == QuantityOf(items, other)
  {
    if n > 0 {
      AddedTimesQuantity(items, product, n - 1, other);
      AddedOnce(AddedTimes(items, product, n - 1), product, other);
    }
  }

  lemma {:induction false} AddedTimesValid(items: seq<CartItem>, product: Product, n: nat)
    requires ValidItems(items)
    ensures ValidItems(AddedTimes(items, product, n))
  {
    if n > 0 {
      AddedTimesValid(items, product, n - 1);
      AddedValid(AddedTimes(items, product, n - 1), product);
    }
  }

  lemma AddedCount(items: seq<CartItem>, product: Product)
    ensures ItemsCount(Added(items, product)) == ItemsCount(items) + 1
  {
    AddedSums(items, product);
  }

  lemma AddedUnitPrice(items: seq<CartItem>, product: Product)
    ensures UnitPrice(Added(items, product), product) == UnitPrice(items, product)
  {
    AddedOnce(items, product, product.id);
  }

  /** One `addToCart` adds the unit price to the total. */
  lemma AddedTotal(items: seq<CartItem>, product: Product)
    ensures Total(Added(items, product)) == Total(items) + UnitPrice(items, product)
  {
    AddedSums(items, product);
  }

  lemma MulStep(n: nat, p: int)
    requires n > 0
    ensures n * p == (n - 1) * p + p
  {
    assert n * p == ((n - 1) + 1) * p;
  }

  /** `for (let i = 0; i < quantity; i++) dispatch(addToCart(product))`. */
  method AddUnits(cart: Cart, product: Product, quantity: int)
    modifies cart
    ensures cart.items == AddedTimes(old(cart.items), product, if quantity < 0 then 0 else quantity)
  {
    var i := 0;
    while i < quantity
      invariant 0 <= i <= (if quantity < 0 then 0 else quantity)
      invariant cart.items == AddedTimes(old(cart.items), product, i)
    {
      cart.AddToCart(product);
      i := i + 1;
    }
  }

  // ---------------------------------------------------------------------------
  // Looking the product up

  /** `products.find(p => p.id === Number(params.id))`: `None` renders "Product not found". */
  function FindProduct(catalogue: seq<Product>, idParam: string): (r: Option<Product>)
    ensures r.Some? ==> r.value in catalogue && StringToNumber(idParam) == Some(r.value.id)
    ensures StringToNumber(idParam).None? ==> r.None?
    ensures StringToNumber(idParam).Some? && (exists i :: 0 <= i < |catalogue| && catalogue[i].id == StringToNumber(idParam).value) ==> r.Some?
  {
    match StringToNumber(idParam)
    case None => None
    case Some(n) =>
      var found := Find(catalogue, (p: Product) => p.id == n);
      if found.Some? then
        assert found.value in catalogue && found.value.id == n;
        found
      else
        assert forall i :: 0 <= i < |catalogue| ==> catalogue[i].id != n;
        None
  }

  /** The path of a catalogue product finds that product, or the first one sharing its id. */
  lemma FindProductById(catalogue: seq<Product>, k: nat)
    requires k < |catalogue|
    ensures FindProduct(catalogue, IntToString(catalogue[k].id)).Some?
    ensures FindProduct(catalogue, IntToString(catalogue[k].id)).value.id == catalogue[k].id
  {
    StringToNumberOfIntToString(catalogue[k].id);
  }

  // ---------------------------------------------------------------------------
  // Related products

  function SameCategoryOther(product: Product): Product -> bool {
    (p: Product) => p.category == product.category && p.id != product.id
  }

  /** The first four catalogue products of the same category and another id. */
  function RelatedProducts(catalogue: seq<Product>, product: Product): seq<Product> {
    var candidates := Filter(catalogue, SameCategoryOther(product));
    if |candidates| <= 4 then candidates else candidates[..4]
  }

  /**
   * At most four products are suggested, each from the catalogue, of the same category and
   * not the product itself; they are the first such products in catalogue order, and fewer
   * than four only when there are no more.
   */
  lemma RelatedProductsSpec(catalogue: seq<Product>, product: Product)
    ensures |RelatedProducts(catalogue, product)| <= 4
    ensures forall p :: p in RelatedProducts(catalogue, product) ==>
      p in catalogue && p.category == product.category && p.id != product.id
    ensures RelatedProducts(catalogue, product) <= Filter(catalogue, SameCategoryOther(product))
    ensures |RelatedProducts(catalogue, product)| < 4 ==>
      RelatedProducts(catalogue, product) == Filter(catalogue, SameCategoryOther(product))
  {
    var candidates := Filter(catalogue, SameCategoryOther(product));
    forall p | p in RelatedProducts(catalogue, product) ensures p in candidates {
    }
  }

  // ---------------------------------------------------------------------------
  // The page

  class Page {
    var quantity: int

    predicate Valid()
      reads this
    {
      quantity >= 1
    }

    constructor ()
      ensures Valid() && quantity == 1
    {
      quantity := 1;
    }

    /** The minus button: `Math.max(1, quantity - 1)`. */
    method Decrement()
      requires Valid()
      modifies this
      ensures Valid()
      ensures quantity == if old(quantity) > 1 then old(quantity) - 1 else 1
    {
      quantity := if quantity - 1 > 1 then quantity - 1 else 1;
    }

    /** The plus button: no upper bound. */
    method Increment()
      requires Valid()
      modifies this
      ensures Valid() && quantity == old(quantity) + 1
    {
      quantity := quantity + 1;
    }

    /** "Add to cart": the chosen number of units of the product, one `addToCart` each. */
    method HandleAddToCart(cart: Cart, product: Product)
      requires Valid()
      modifies cart
      ensures cart.items == AddedTimes(old(cart.items), product, quantity)
      ensures ItemsCount(cart.items) == ItemsCount(old(cart.items)) + quantity
    {
      AddUnits(cart, product, quantity);
      AddedTimesSpec(old(cart.items), product, quantity, product.id);
    }
  }
}
