/**
 * The product page of the router-based screens (`src/pages/ProductDetailsPage.jsx`): the
 * product fetched from the mock JSON server, a quantity picker bounded by 1 below and by the
 * stock above, and "Add to cart", which dispatches `addToCart` once per unit and is disabled
 * for a product out of stock. The request is the parameter `fetched` (`None` when it fails);
 * the toasts are not modelled.
 */
module ProductDetailsPage {
  import opened JsLib
  import opened CartSlice
  import opened ProductRoute

  /** What the page does once the request ends: show the product, or go back to the list. */
  datatype FetchEffect = ShowProduct | NavigateToProducts

  class Page {
    var product: Option<Product>
    var isLoading: bool
    var quantity: int

    predicate Valid()
      reads this
    {
      quantity >= 1
    }

    constructor ()
      ensures Valid() && product.None? && isLoading && quantity == 1
    {
      product := None;
      isLoading := true;
      quantity := 1;
    }

    /** The end of `fetchProductDetails`: a failed request keeps the product and leads back to the list. */
    method FinishFetch(fetched: Option<Product>) returns (effect: FetchEffect)
      requires Valid()
      modifies this
      ensures Valid() && !isLoading && quantity == old(quantity)
      ensures fetched.Some? ==> product == fetched && effect == ShowProduct
      ensures fetched.None? ==> product == old(product) && effect == NavigateToProducts
    {
      if fetched.Some? {
        product := fetched;
        effect := ShowProduct;
      } else {
        effect := NavigateToProducts;
      }
      isLoading := false;
    }

    /** The minus button: disabled at 1, otherwise `Math.max(1, quantity - 1)`. */
    method Decrement()
      requires Valid()
      modifies this
      ensures Valid() && product == old(product)
      ensures quantity == if old(quantity) <= 1 then old(quantity) else old(quantity) - 1
    {
      if quantity <= 1 {
        return;
      }
      quantity := if quantity - 1 > 1 then quantity - 1 else 1;
    }

    /**
     * The plus button, shown only with a product: disabled once the quantity reaches the
     * stock, otherwise `Math.min(product.stock, quantity + 1)`. It never raises the quantity
     * above the stock.
     */
    method Increment()
      requires Valid() && product.Some?
      modifies this
      ensures Valid() && product == old(product)
      ensures quantity == if old(quantity) >= product.value.stock then old(quantity) else old(quantity) + 1
      ensures old(quantity) <= product.value.stock ==> quantity <= product.value.stock
    {
      var stock := product.value.stock;
      if quantity >= stock {
        return;
      }
      quantity := if stock < quantity + 1 then stock else quantity + 1;
    }

    /**
     * A click on "Add to cart": nothing without a product or when the button is disabled
     * (a product out of stock);
     * otherwise `quantity` units, one `addToCart` each.
     */
    method HandleAddToCart(cart: Cart)
      requires Valid()
      modifies cart
      ensures product.None? || product.value.stock == 0 ==> cart.items == old(cart.items)
      ensures product.Some? && product.value.stock != 0 ==>
        && cart.items == AddedTimes(old(cart.items), product.value, quantity)
        && ItemsCount(cart.items) == ItemsCount(old(cart.items)) + quantity
        && QuantityOf(cart.items, product.value.id) == QuantityOf(old(cart.items), product.value.id) + quantity
    {
      if product.None? || product.value.stock == 0 {
        return;
      }
      AddUnits(cart, product.value, quantity);
      AddedTimesSpec(old(cart.items), product.value, quantity, product.value.id);
    }
  }
}
