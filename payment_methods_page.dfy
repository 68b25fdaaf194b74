/**
 * The payment-methods page of the router-based screens (`src/pages/PaymentMethodsPage.jsx`):
 * a list of cards the user can extend and prune, and, when the page is reached from checkout,
 * a pay button whose success empties the cart. The card id `Date.now()` is the parameter
 * `now`; the starting cards are a parameter of the constructor; the two-second payment delay,
 * the toasts and the navigation are not modelled.
 */
module PaymentMethodsPage {
  import opened JsLib
  import CartSlice

  datatype Card = Card(id: int, kind: string, last4: string, holder: string, expiry: string)

  /** The add-card form, `newCard`. */
  datatype CardForm = CardForm(number: string, holder: string, expiry: string, cvc: string)

  const EmptyForm := CardForm("", "", "", "")

  /** `searchParams.get("redirect") === "success"`; a missing parameter is `None`. */
  predicate IsCheckout(redirect: Option<string>) {
    redirect == Some("success")
  }

  /** The card a form turns into: a Visa with the last four characters of the number. */
  function CardOf(form: CardForm, now: int): (c: Card)
    ensures c.id == now && c.kind == "Visa" && c.holder == form.holder && c.expiry == form.expiry
    ensures |form.number| >= 4 ==> c.last4 == form.number[|form.number| - 4..]
    ensures |form.number| < 4 ==> c.last4 == form.number
  {
    Card(now, "Visa", SliceLast(form.number, 4), form.holder, form.expiry)
  }

  /** `handleAddCard`: nothing without a number and a holder; otherwise the card is appended. */
  function CardsAdded(cards: seq<Card>, form: CardForm, now: int): Option<seq<Card>> {
    if form.number == "" || form.holder == "" then None
    else Some(cards + [CardOf(form, now)])
  }

  /** `handleDelete`: every card with another id, in order. */
  function CardsDeleted(cards: seq<Card>, id: int): seq<Card> {
    Filter(cards, (c: Card) => c.id != id)
  }

  predicate HasCard(cards: seq<Card>, id: int) {
    exists i :: 0 <= i < |cards| && cards[i].id == id
  }

  /**
   * The add is refused exactly when the number or the holder is empty (expiry and CVC are not
   * checked); otherwise exactly one card follows the unchanged list, carrying `now` as its id.
   */
  lemma CardsAddedSpec(cards: seq<Card>, form: CardForm, now: int)
    ensures CardsAdded(cards, form, now).None? <==> form.number == "" || form.holder == ""
    ensures CardsAdded(cards, form, now).Some? ==>
      var r := CardsAdded(cards, form, now).value;
      && |r| == |cards| + 1 && r[..|cards|] == cards
      && r[|cards|].id == now && r[|cards|].kind == "Visa" && r[|cards|].holder == form.holder
      && (|form.number| >= 4 ==> r[|cards|].last4 == form.number[|form.number| - 4..])
  {
    if form.number != "" && form.holder != "" {
      assert (cards + [CardOf(form, now)])[..|cards|] == cards;
    }
  }

  /** Deleting leaves no card with that id, keeps every other card, and a second delete changes nothing. */
  lemma {:induction false} CardsDeletedSpec(cards: seq<Card>, id: int)
    ensures !HasCard(CardsDeleted(cards, id), id)
    ensures forall i :: 0 <= i < |cards| && cards[i].id != id ==> cards[i] in CardsDeleted(cards, id)
    ensures forall c :: c in CardsDeleted(cards, id) ==> c in cards
    ensures !HasCard(cards, id) ==> CardsDeleted(cards, id) == cards
    ensures CardsDeleted(CardsDeleted(cards, id), id) == CardsDeleted(cards, id)
  {
    var q := (c: Card) => c.id != id;
    var r := CardsDeleted(cards, id);
    FilterAll(r, q);
    if !HasCard(cards, id) {
      FilterAll(cards, q);
    }
  }

  class Page {
    var cards: seq<Card>
    var isAdding: bool
    var newCard: CardForm

    constructor (initialCards: seq<Card>)
      ensures cards == initialCards && !isAdding && newCard == EmptyForm
    {
      cards := initialCards;
      isAdding := false;
      newCard := EmptyForm;
    }

    /** Submitting the form at time `now`: a refused add changes nothing; an accepted one closes and empties the form. */
    method HandleAddCard(now: int)
      modifies this
      ensures match CardsAdded(old(cards), old(newCard), now)
              case None => cards == old(cards) && isAdding == old(isAdding) && newCard == old(newCard)
              case Some(added) => cards == added && !isAdding && newCard == EmptyForm
    {
      if newCard.number == "" || newCard.holder == "" {
        return;
      }
      cards := cards + [Card(now, "Visa", SliceLast(newCard.number, 4), newCard.holder, newCard.expiry)];
      isAdding := false;
      newCard := EmptyForm;
    }

    method HandleDelete(id: int)
      modifies this
      ensures cards == CardsDeleted(old(cards), id)
      ensures isAdding == old(isAdding) && newCard == old(newCard)
    {
      cards := Filter(cards, (c: Card) => c.id != id);
    }

    /** The four form inputs store what is typed, unfiltered. */
    method EditForm(form: CardForm)
      modifies this
      ensures newCard == form
      ensures cards == old(cards) && isAdding == old(isAdding)
    {
      newCard := form;
    }

    /** "Add New Card" opens the form and "Cancel" closes it; the form's contents stay. */
    method SetAdding(adding: bool)
      modifies this
      ensures isAdding == adding
      ensures cards == old(cards) && newCard == old(newCard)
    {
      isAdding := adding;
    }

    /** The success action of `handlePay`: the cart is cleared; the page itself keeps its state. */
    method HandlePaySuccess(cart: CartSlice.Cart)
      modifies cart
      ensures cart.items == [] && CartSlice.Total(cart.items) == 0 && CartSlice.ItemsCount(cart.items) == 0
    {
      cart.ClearCart();
    }
  }
}
