/**
 * The saved-cards page of the app router (`src/app/payment-methods/page.jsx`): a list of
 * payment methods, at most one of them the default, and the add-card form whose inputs only
 * ever hold digits within their lengths. The list and the form are page state that the
 * handlers replace; the simulated one-second delay, the toasts and the login redirect are not
 * modelled.
 */
module PaymentMethodsRoute {
  import opened JsLib

  datatype PaymentMethod = PaymentMethod(
    id: int, kind: string, cardNumber: string, cardHolder: string, expiryDate: string, isDefault: bool)

  /** The add-card form, `newCard`. */
  datatype NewCard = NewCard(cardNumber: string, cardHolder: string, expiryMonth: string, expiryYear: string, cvv: string)

  const EmptyCard := NewCard("", "", "", "", "")

  /** The two cards the page starts with; the first is the default. */
  const InitialMethods := [
    PaymentMethod(1, "credit_card", "**** **** **** 4242", "John Doe", "12/25", true),
    PaymentMethod(2, "credit_card", "**** **** **** 5555", "John Doe", "06/26", false)]

  /** What a handler does to the list: refuse with a message, or give the new list. */
  datatype Outcome = Refused(message: string) | Updated(methods: seq<PaymentMethod>)

  const FillInAll := "Please fill in all card details"
  const CannotDeleteDefault := "Cannot delete default payment method. Set another as default first."

  predicate UniqueIds(methods: seq<PaymentMethod>) {
    forall i, j :: 0 <= i < j < |methods| ==> methods[i].id != methods[j].id
  }

  /** No two methods are the default. */
  predicate AtMostOneDefault(methods: seq<PaymentMethod>) {
    forall i, j :: 0 <= i < j < |methods| && methods[i].isDefault ==> !methods[j].isDefault
  }

  predicate HasId(methods: seq<PaymentMethod>, id: int) {
    exists i :: 0 <= i < |methods| && methods[i].id == id
  }

  // ---------------------------------------------------------------------------
  // Adding a card

  /** The form is complete when none of its five fields is empty. */
  predicate Complete(card: NewCard) {
    card.cardNumber != "" && card.cardHolder != "" && card.expiryMonth != ""
    && card.expiryYear != "" && card.cvv != ""
  }

  /** `**** **** **** ` followed by the last four characters of the number. */
  function MaskedNumber(cardNumber: string): (r: string)
    ensures |r| == 15 + if |cardNumber| < 4 then |cardNumber| else 4
    ensures r[..15] == "**** **** **** "
    ensures |cardNumber| >= 4 ==> r[15..] == cardNumber[|cardNumber| - 4..]
    ensures |cardNumber| < 4 ==> r[15..] == cardNumber
  {
    var prefix := "**** **** **** ";
    assert |prefix| == 15;
    prefix + SliceLast(cardNumber, 4)
  }

  /** The month, a slash, and the last two characters of the year. */
  function ExpiryDate(month: string, year: string): (r: string)
    ensures |r| > |month| && r[..|month|] == month && r[|month|] == '/'
    ensures |year| >= 2 ==> r[|month| + 1..] == year[|year| - 2..]
    ensures |year| < 2 ==> r[|month| + 1..] == year
  {
    var tail := SliceLast(year, 2);
    var r := month + ['/'] + tail;
    assert r[..|month|] == month && r[|month| + 1..] == tail;
    r
  }

  /** The largest id in the list, 0 for an empty list. */
  function MaxId(methods: seq<PaymentMethod>): (m: int)
    ensures methods == [] ==> m == 0
    ensures forall i :: 0 <= i < |methods| ==> methods[i].id <= m
  {
    if methods == [] then 0
    else
      var rest := MaxId(methods[1..]);
      assert forall i :: 1 <= i < |methods| ==> methods[i] == methods[1..][i - 1];
      if methods[0].id > rest then methods[0].id else rest
  }

  /** The id the page gives a new card as written: one more than the number of cards. */
  function NewIdAsWritten(methods: seq<PaymentMethod>): int { |methods| + 1 }

  /** The id a new card gets in this model: one more than the largest id in use. */
  function NewId(methods: seq<PaymentMethod>): (id: int)
    ensures !HasId(methods, id)
  {
    MaxId(methods) + 1
  }

  /** The card built from a complete form, with the given id; it is the default only in an empty list. */
  function CardOf(card: NewCard, id: int, methods: seq<PaymentMethod>): PaymentMethod {
    PaymentMethod(id, "credit_card", MaskedNumber(card.cardNumber), card.cardHolder,
                  ExpiryDate(card.expiryMonth, card.expiryYear), methods == [])
  }

  /** `handleAddCard` as written: the new card takes `paymentMethods.length + 1` as its id. */
  function AddedAsWritten(methods: seq<PaymentMethod>, card: NewCard): Outcome {
    if !Complete(card) then Refused(FillInAll)
    else Updated(methods + [CardOf(card, NewIdAsWritten(methods), methods)])
  }

  /** `handleAddCard` with an id no card in the list has. */
  function Added(methods: seq<PaymentMethod>, card: NewCard): Outcome {
    if !Complete(card) then Refused(FillInAll)
    else Updated(methods + [CardOf(card, NewId(methods), methods)])
  }

  /**
   * An incomplete form is refused; a complete one appends exactly one card, after the
   * unchanged list, with a fresh id, the masked number, the holder and the expiry, which is the
   * default exactly when the list was empty. Distinct ids and at most one default are kept.
   */
  lemma AddedSpec(methods: seq<PaymentMethod>, card: NewCard)
    ensures !Complete(card) <==> Added(methods, card) == Refused(FillInAll)
    ensures Complete(card) ==> Added(methods, card).Updated?
    ensures Complete(card) ==>
      var r := Added(methods, card).methods;
      && |r| == |methods| + 1 && r[..|methods|] == methods
      && !HasId(methods, r[|methods|].id)
      && r[|methods|].cardNumber == "**** **** **** " + SliceLast(card.cardNumber, 4)
      && r[|methods|].cardHolder == card.cardHolder
      && r[|methods|].expiryDate == card.expiryMonth + "/" + SliceLast(card.expiryYear, 2)
      && (r[|methods|].isDefault <==> methods == [])
    ensures Complete(card) && UniqueIds(methods) ==> UniqueIds(Added(methods, card).methods)
    ensures Complete(card) && AtMostOneDefault(methods) ==> AtMostOneDefault(Added(methods, card).methods)
  {
    if Complete(card) {
      var c := CardOf(card, NewId(methods), methods);
      var r := methods + [c];
      assert Added(methods, card) == Updated(r);
      assert r[..|methods|] == methods && r[|methods|] == c;
      if UniqueIds(methods) {
        AppendUnique(methods, c);
      }
      if AtMostOneDefault(methods) {
        AppendOneDefault(methods, c);
      }
    }
  }

  lemma AppendUnique(methods: seq<PaymentMethod>, c: PaymentMethod)
    requires UniqueIds(methods) && !HasId(methods, c.id)
    ensures UniqueIds(methods + [c])
  {
    var r := methods + [c];
    forall i, j | 0 <= i < j < |r| ensures r[i].id != r[j].id {
      assert r[i] == methods[i];
      if j < |methods| {
        assert r[j] == methods[j];
      }
    }
  }

  lemma AppendOneDefault(methods: seq<PaymentMethod>, c: PaymentMethod)
    requires AtMostOneDefault(methods) && (c.isDefault ==> methods == [])
    ensures AtMostOneDefault(methods + [c])
  {
    var r := methods + [c];
    forall i, j | 0 <= i < j < |r| && r[i].isDefault ensures !r[j].isDefault {
      assert r[i] == methods[i];
      if j < |methods| {
        assert r[j] == methods[j];
      }
    }
  }

  // ---------------------------------------------------------------------------
  // Setting the default

  /** `handleSetDefault(id)`: every method keeps its data and is the default exactly when it has that id. */
  function WithDefault(methods: seq<PaymentMethod>, id: int): (r: seq<PaymentMethod>) {
    seq(|methods|, i requires 0 <= i < |methods| => methods[i].(isDefault := methods[i].id == id))
  }

  /**
   * After `handleSetDefault(id)` on a list with distinct ids, exactly the method with that id is
   * the default, or none when the id is absent; nothing else about any method changes.
   */
  lemma WithDefaultSpec(methods: seq<PaymentMethod>, id: int)
    ensures |WithDefault(methods, id)| == |methods|
    ensures forall i :: 0 <= i < |methods| ==> WithDefault(methods, id)[i] == methods[i].(isDefault := methods[i].id == id)
    ensures !HasId(methods, id) ==> forall i :: 0 <= i < |methods| ==> !WithDefault(methods, id)[i].isDefault
    ensures UniqueIds(methods) ==> AtMostOneDefault(WithDefault(methods, id)) && UniqueIds(WithDefault(methods, id))
    ensures UniqueIds(methods) && HasId(methods, id) ==>
      exists k :: 0 <= k < |methods| && WithDefault(methods, id)[k].isDefault && WithDefault(methods, id)[k].id == id
  {
    var r := WithDefault(methods, id);
    if HasId(methods, id) {
      var k :| 0 <= k < |methods| && methods[k].id == id;
      assert r[k].isDefault;
    }
  }

  // ---------------------------------------------------------------------------
  // Deleting a method

  /**
   * `handleDelete(id)`: refused when the first method with that id is the default and there is
   * more than one method; otherwise every method with that id goes.
   */
  function Deleted(methods: seq<PaymentMethod>, id: int): Outcome {
    var found := Find(methods, (m: PaymentMethod) => m.id == id);
    if found.Some? && found.value.isDefault && |methods| > 1 then Refused(CannotDeleteDefault)
    else Updated(Filter(methods, (m: PaymentMethod) => m.id != id))
  }

  /**
   * With distinct ids, deleting the default while others remain is refused; otherwise exactly
   * the method with that id goes, the rest stay in order, and a lone default can be deleted.
   * Distinct ids and at most one default are kept.
   */
  lemma DeletedSpec(methods: seq<PaymentMethod>, id: int)
    requires UniqueIds(methods)
    ensures (exists i :: 0 <= i < |methods| && methods[i].id == id && methods[i].isDefault) && |methods| > 1
      <==> Deleted(methods, id) == Refused(CannotDeleteDefault)
    ensures Deleted(methods, id).Updated? ==>
      var r := Deleted(methods, id).methods;
      && r == Filter(methods, (m: PaymentMethod) => m.id != id)
      && !HasId(r, id)
      && (forall i :: 0 <= i < |methods| && methods[i].id != id ==> methods[i] in r)
      && UniqueIds(r)
      && (AtMostOneDefault(methods) ==> AtMostOneDefault(r))
    ensures |methods| == 1 && methods[0].id == id && methods[0].isDefault ==> Deleted(methods, id) == Updated([])
  {
    var p := (m: PaymentMethod) => m.id == id;
    var q := (m: PaymentMethod) => m.id != id;
    if exists i :: 0 <= i < |methods| && methods[i].id == id {
      var i :| 0 <= i < |methods| && methods[i].id == id;
      FindFirst(methods, p, i);
      assert Find(methods, p) == Some(methods[i]);
    }
    if Deleted(methods, id).Updated? {
      var r := Filter(methods, q);
      FilterKeepsOrder(methods, q);
    }
    if |methods| == 1 && methods[0].id == id {
      assert Filter(methods, q) == Filter([], q);
    }
  }

  /** A filtered list is a sublist: its elements appear in the same order, so distinct ids and at most one default carry over. */
  lemma {:induction false} FilterKeepsOrder(methods: seq<PaymentMethod>, q: PaymentMethod -> bool)
    ensures UniqueIds(methods) ==> UniqueIds(Filter(methods, q))
    ensures AtMostOneDefault(methods) ==> AtMostOneDefault(Filter(methods, q))
  {
    if methods != [] {
      var init, x := methods[..|methods| - 1], methods[|methods| - 1];
      FilterKeepsOrder(init, q);
      assert methods == init + [x];
      var r := Filter(methods, q);
      if q(x) {
        forall i | 0 <= i < |r| - 1 ensures r[i] in init {
          assert r[i] == Filter(init, q)[i];
        }
      }
    }
  }

  // ---------------------------------------------------------------------------
  // The new id as written: a duplicate after a deletion

  /**
   * As written, when `length + 1` is already an id (which happens once a card other than the
   * last has been deleted), the new card repeats it, and setting that id as the default then
   * marks two cards.
   */
  lemma AddedAsWrittenDuplicates(methods: seq<PaymentMethod>, card: NewCard, k: nat)
    requires Complete(card) && k < |methods| && methods[k].id == |methods| + 1
    ensures !UniqueIds(AddedAsWritten(methods, card).methods)
    ensures !AtMostOneDefault(WithDefault(AddedAsWritten(methods, card).methods, |methods| + 1))
  {
    var r := AddedAsWritten(methods, card).methods;
    assert r[k] == methods[k] && r[|methods|].id == |methods| + 1;
    var d := WithDefault(r, |methods| + 1);
    assert d[k].isDefault && d[|methods|].isDefault;
  }

  /**
   * The sequence that reaches it from cards 1 and 2 with card 2 not the default, as the page
   * starts: add a card (id 3), delete card 2, and the next card added as written gets id 3 again.
   */
  lemma AddedAsWrittenExample(a: PaymentMethod, b: PaymentMethod, card: NewCard)
    requires a.id == 1 && b.id == 2 && !b.isDefault && Complete(card)
    ensures var afterAdd := AddedAsWritten([a, b], card);
      && afterAdd.Updated? && Deleted(afterAdd.methods, 2).Updated?
      && !UniqueIds(AddedAsWritten(Deleted(afterAdd.methods, 2).methods, card).methods)
  {
    var c := CardOf(card, 3, [a, b]);
    assert AddedAsWritten([a, b], card).methods == [a, b, c];
    DeleteMiddle(a, b, c);
    AddedAsWrittenDuplicates([a, c], card, 1);
  }

  /** The page starts with cards 1 and 2, and card 2 is not the default. */
  lemma InitialShape()
    ensures InitialMethods == [InitialMethods[0], InitialMethods[1]]
    ensures InitialMethods[0].id == 1 && InitialMethods[1].id == 2 && !InitialMethods[1].isDefault
  {
  }

  /** Deleting the middle one of three cards, when it alone has id 2 and is not the default. */
  lemma DeleteMiddle(a: PaymentMethod, b: PaymentMethod, c: PaymentMethod)
    requires a.id != 2 && b.id == 2 && c.id != 2 && !b.isDefault
    ensures Deleted([a, b, c], 2) == Updated([a, c])
  {
    var p := (m: PaymentMethod) => m.id == 2;
    var q := (m: PaymentMethod) => m.id != 2;
    FindFirst([a, b, c], p, 1);
    assert Find([a, b, c], p) == Some(b);
    assert [a, b, c] == [a, b] + [c] && [a, b] == [a] + [b];
    FilterAppend([a, b], [c], q);
    FilterAppend([a], [b], q);
    assert Filter([a], q) == Filter([], q) + [a];
    assert Filter([b], q) == Filter([], q);
    assert Filter([c], q) == Filter([], q) + [c];
    assert Filter([a, b, c], q) == [a, c];
  }

  // ---------------------------------------------------------------------------
  // The card-number display and the input filters

  predicate NotWhitespace(c: char) { !IsWhitespace(c) }

  predicate NotSpace(c: char) { c != ' ' }

  /** `value.replace(/\s/g, '')`. */
  function WithoutWhitespace(value: string): (r: string)
    ensures forall i :: 0 <= i < |r| ==> !IsWhitespace(r[i])
  {
    Filter(value, NotWhitespace)
  }

  /** `/.{1,4}/g` on text without line breaks: consecutive pieces of four, the last possibly shorter. */
  function Chunks(s: string): (r: seq<string>)
    ensures s == [] <==> r == []
    decreases |s|
  {
    if s == [] then []
    else if |s| <= 4 then [s]
    else [s[..4]] + Chunks(s[4..])
  }

  /** `formatCardNumber`: the number without white space, in groups of four joined by single spaces. */
  function FormatCardNumber(value: string): string {
    var cleaned := WithoutWhitespace(value);
    if cleaned == [] then cleaned else Join(Chunks(cleaned), ' ')
  }

  function Concat(parts: seq<string>): string {
    if parts == [] then [] else parts[0] + Concat(parts[1..])
  }

  /** The pieces put back together give the text; each has one to four characters, and all but the last exactly four. */
  lemma {:induction false} ChunksSpec(s: string)
    ensures Concat(Chunks(s)) == s
    ensures forall i :: 0 <= i < |Chunks(s)| ==> 1 <= |Chunks(s)[i]| <= 4
    ensures forall i :: 0 <= i < |Chunks(s)| - 1 ==> |Chunks(s)[i]| == 4
    decreases |s|
  {
    if |s| > 4 {
      ChunksSpec(s[4..]);
      var r := Chunks(s);
      assert forall i :: 1 <= i < |r| ==> r[i] == Chunks(s[4..])[i - 1];
      assert s == s[..4] + s[4..];
    }
  }

  /** Joining pieces that hold no space and then dropping the spaces gives the pieces put together. */
  lemma {:induction false} UnspacedJoin(parts: seq<string>)
    requires forall i, j :: 0 <= i < |parts| && 0 <= j < |parts[i]| ==> parts[i][j] != ' '
    ensures Filter(Join(parts, ' '), NotSpace) == Concat(parts)
  {
    if parts != [] {
      FilterAll(parts[0], NotSpace);
      if |parts| == 1 {
        assert Concat(parts) == parts[0] + Concat([]);
      } else {
        UnspacedJoin(parts[1..]);
        FilterAppend(parts[0] + [' '], Join(parts[1..], ' '), NotSpace);
        FilterAppend(parts[0], [' '], NotSpace);
        assert Filter([' '], NotSpace) == Filter([], NotSpace);
      }
    }
  }

  /**
   * `formatCardNumber` puts a space between groups of at most four characters, every group but
   * the last full; dropping the spaces from its output gives back the input without its white space.
   */
  lemma FormatCardNumberSpec(value: string)
    ensures Filter(FormatCardNumber(value), NotSpace) == WithoutWhitespace(value)
    ensures WithoutWhitespace(value) != [] ==> FormatCardNumber(value) == Join(Chunks(WithoutWhitespace(value)), ' ')
    ensures forall i :: 0 <= i < |Chunks(WithoutWhitespace(value))| - 1 ==> |Chunks(WithoutWhitespace(value))[i]| == 4
  {
    var cleaned := WithoutWhitespace(value);
    ChunksSpec(cleaned);
    var parts := Chunks(cleaned);
    if cleaned == [] {
      assert Filter(cleaned, NotSpace) == [];
    } else {
      forall i, j | 0 <= i < |parts| && 0 <= j < |parts[i]| ensures parts[i][j] != ' ' {
        ChunkChars(cleaned, i, j);
      }
      UnspacedJoin(parts);
    }
  }

  /** Every character of a piece is a character of the text. */
  lemma {:induction false} ChunkChars(s: string, i: nat, j: nat)
    requires i < |Chunks(s)| && j < |Chunks(s)[i]|
    ensures Chunks(s)[i][j] in s
    decreases |s|
  {
    if |s| > 4 && i > 0 {
      ChunkChars(s[4..], i - 1, j);
    }
  }

  /** The input filters accept a value of at most `maxLength` characters, all ASCII digits. */
  predicate Accepts(value: string, maxLength: nat) {
    |value| <= maxLength && AllDigits(value)
  }

  /** What the form's filters guarantee: number at most 16 digits, month 2, year 4, CVV 3. */
  predicate FilteredCard(card: NewCard) {
    Accepts(card.cardNumber, 16) && Accepts(card.expiryMonth, 2) && Accepts(card.expiryYear, 4) && Accepts(card.cvv, 3)
  }

  /** `handleCardNumberChange`: the typed value without white space, if it passes. */
  function CardNumberChanged(card: NewCard, typed: string): (r: NewCard)
    ensures Accepts(WithoutWhitespace(typed), 16) ==> r == card.(cardNumber := WithoutWhitespace(typed))
    ensures !Accepts(WithoutWhitespace(typed), 16) ==> r == card
    ensures FilteredCard(card) ==> FilteredCard(r)
  {
    var value := WithoutWhitespace(typed);
    if |value| <= 16 && AllDigits(value) then card.(cardNumber := value) else card
  }

  /** `handleCvvChange` and the month and year inputs: the typed value as it is, if it passes. */
  function CvvChanged(card: NewCard, typed: string): (r: NewCard)
    ensures Accepts(typed, 3) ==> r == card.(cvv := typed)
    ensures !Accepts(typed, 3) ==> r == card
    ensures FilteredCard(card) ==> FilteredCard(r)
  {
    if |typed| <= 3 && AllDigits(typed) then card.(cvv := typed) else card
  }

  function ExpiryMonthChanged(card: NewCard, typed: string): (r: NewCard)
    ensures Accepts(typed, 2) ==> r == card.(expiryMonth := typed)
    ensures !Accepts(typed, 2) ==> r == card
    ensures FilteredCard(card) ==> FilteredCard(r)
  {
    if |typed| <= 2 && AllDigits(typed) then card.(expiryMonth := typed) else card
  }

  function ExpiryYearChanged(card: NewCard, typed: string): (r: NewCard)
    ensures Accepts(typed, 4) ==> r == card.(expiryYear := typed)
    ensures !Accepts(typed, 4) ==> r == card
    ensures FilteredCard(card) ==> FilteredCard(r)
  {
    if |typed| <= 4 && AllDigits(typed) then card.(expiryYear := typed) else card
  }

  // ---------------------------------------------------------------------------
  // The page

  class Page {
    var paymentMethods: seq<PaymentMethod>
    var newCard: NewCard
    var showAddForm: bool

    /** Every handler keeps ids distinct, at most one default, and the form within its filters. */
    predicate Valid()
      reads this
    {
      UniqueIds(paymentMethods) && AtMostOneDefault(paymentMethods) && FilteredCard(newCard)
    }

    constructor ()
      ensures paymentMethods == InitialMethods && newCard == EmptyCard && !showAddForm
      ensures Valid()
    {
      paymentMethods := InitialMethods;
      newCard := EmptyCard;
      showAddForm := false;
    }

    /** Submitting the form: on success the card is appended, the form closes and is emptied. */
    method HandleAddCard() returns (error: Option<string>)
      requires Valid()
      modifies this
      ensures Valid()
      ensures match Added(old(paymentMethods), old(newCard))
              case Refused(message) =>
                error == Some(message) && paymentMethods == old(paymentMethods)
                && newCard == old(newCard) && showAddForm == old(showAddForm)
              case Updated(methods) =>
                error == None && paymentMethods == methods && newCard == EmptyCard && !showAddForm
    {
      AddedSpec(paymentMethods, newCard);
      if !Complete(newCard) {
        return Some(FillInAll);
      }
      var card := CardOf(newCard, NewId(paymentMethods), paymentMethods);
      paymentMethods := paymentMethods + [card];
      showAddForm := false;
      newCard := EmptyCard;
      error := None;
    }

    method HandleSetDefault(id: int)
      requires Valid()
      modifies this
      ensures Valid()
      ensures paymentMethods == WithDefault(old(paymentMethods), id)
      ensures newCard == old(newCard) && showAddForm == old(showAddForm)
    {
      WithDefaultSpec(paymentMethods, id);
      paymentMethods := WithDefault(paymentMethods, id);
    }

    method HandleDelete(id: int) returns (error: Option<string>)
      requires Valid()
      modifies this
      ensures Valid()
      ensures match Deleted(old(paymentMethods), id)
              case Refused(message) => error == Some(message) && paymentMethods == old(paymentMethods)
              case Updated(methods) => error == None && paymentMethods == methods
      ensures newCard == old(newCard) && showAddForm == old(showAddForm)
    {
      DeletedSpec(paymentMethods, id);
      match Deleted(paymentMethods, id)
      case Refused(message) =>
        error := Some(message);
      case Updated(methods) =>
        paymentMethods := methods;
        error := None;
    }

    method HandleCardNumberChange(typed: string)
      requires Valid()
      modifies this
      ensures Valid()
      ensures newCard == CardNumberChanged(old(newCard), typed)
      ensures paymentMethods == old(paymentMethods) && showAddForm == old(showAddForm)
    {
      newCard := CardNumberChanged(newCard, typed);
    }

    /** The holder input takes whatever is typed. */
    method HandleCardHolderChange(typed: string)
      requires Valid()
      modifies this
      ensures Valid()
      ensures newCard == old(newCard).(cardHolder := typed)
      ensures paymentMethods == old(paymentMethods) && showAddForm == old(showAddForm)
    {
      newCard := newCard.(cardHolder := typed);
    }

    method HandleExpiryMonthChange(typed: string)
      requires Valid()
      modifies this
      ensures Valid()
      ensures newCard == ExpiryMonthChanged(old(newCard), typed)
      ensures paymentMethods == old(paymentMethods) && showAddForm == old(showAddForm)
    {
      newCard := ExpiryMonthChanged(newCard, typed);
    }

    method HandleExpiryYearChange(typed: string)
      requires Valid()
      modifies this
      ensures Valid()
      ensures newCard == ExpiryYearChanged(old(newCard), typed)
      ensures paymentMethods == old(paymentMethods) && showAddForm == old(showAddForm)
    {
      newCard := ExpiryYearChanged(newCard, typed);
    }

    method HandleCvvChange(typed: string)
      requires Valid()
      modifies this
      ensures Valid()
      ensures newCard == CvvChanged(old(newCard), typed)
      ensures paymentMethods == old(paymentMethods) && showAddForm == old(showAddForm)
    {
      newCard := CvvChanged(newCard, typed);
    }

    /** The "Add New Card" button flips the form open or closed. */
    method ToggleAddForm()
      modifies this
      ensures showAddForm == !old(showAddForm)
      ensures paymentMethods == old(paymentMethods) && newCard == old(newCard)
    {
      showAddForm := !showAddForm;
    }
  }
}
