/** The cart screen's handlers: the quantity steppers, the delete button, the
    clear-cart confirmation and the checkout guard. Each press is a pure function
    of the cart; the alerts' texts and the navigation calls are not modelled
    beyond the route chosen. */
module CartScreen {
  import opened Types
  import CartStore
  import opened Arith

  /** The '−' stepper of line `i`: `updateQuantity(id, Math.max(1, quantity - 1))`. */
  function Decrement(c: CartStore.Cart, i: nat): (r: CartStore.Cart)
    requires i < |c|
    ensures |r| == |c|
    ensures r[i].product == c[i].product && r[i].quantity == Max(1, c[i].quantity - 1)
    ensures r[i].quantity >= 1
    ensures forall j :: 0 <= j < |c| && c[j].product.id != c[i].product.id ==> r[j] == c[j]
    ensures CartStore.QuantitiesPositive(c) ==> CartStore.QuantitiesPositive(r)
    ensures CartStore.IdsUnique(c) && c[i].quantity == 1 ==> r == c
  {
    CartStore.UpdateQuantity(c, c[i].product.id, Max(1, c[i].quantity - 1))
  }

  /** The '+' stepper of line `i`: `updateQuantity(id, quantity + 1)`. */
  function Increment(c: CartStore.Cart, i: nat): (r: CartStore.Cart)
    requires i < |c|
    ensures |r| == |c|
    ensures r[i].product == c[i].product && r[i].quantity == c[i].quantity + 1
    ensures forall j :: 0 <= j < |c| && c[j].product.id != c[i].product.id ==> r[j] == c[j]
    ensures CartStore.IdsUnique(c) ==> forall j :: 0 <= j < |c| && j != i ==> r[j] == c[j]
  {
    CartStore.UpdateQuantity(c, c[i].product.id, c[i].quantity + 1)
  }

  /** With unique identifiers, '+' adds one item and '−' removes one unless the line holds a single item. */
  lemma StepperTotals(c: CartStore.Cart, i: nat)
    requires CartStore.IdsUnique(c)
    requires i < |c|
    ensures CartStore.TotalItems(Increment(c, i)) == CartStore.TotalItems(c) + 1
    ensures c[i].quantity > 1 ==> CartStore.TotalItems(Decrement(c, i)) == CartStore.TotalItems(c) - 1
    ensures c[i].quantity == 1 ==> CartStore.TotalItems(Decrement(c, i)) == CartStore.TotalItems(c)
  {
    var id := c[i].product.id;
    assert CartStore.HasId(c, id);
    CartStore.FindUnique(c, id, i);
    CartStore.UpdateQuantityOverwrites(c, id, c[i].quantity + 1);
    CartStore.UpdateQuantityOverwrites(c, id, Max(1, c[i].quantity - 1));
  }

  /** A stepper press on the line at `line`; there is no button for a line that does not exist. */
  datatype Stepper = Minus(line: nat) | Plus(line: nat)

  /** One stepper press: no line is added, dropped or given another product; the
      pressed line holds `q + 1` after '+' and `max(1, q − 1)` after '−'. */
  function Press(c: CartStore.Cart, s: Stepper): (r: CartStore.Cart)
    ensures |r| == |c|
    ensures forall j :: 0 <= j < |c| ==> r[j].product == c[j].product
    ensures s.line >= |c| ==> r == c
    ensures s.line < |c| && s.Plus? ==> r[s.line].quantity == c[s.line].quantity + 1
    ensures s.line < |c| && s.Minus? ==> r[s.line].quantity == Max(1, c[s.line].quantity - 1)
  {
    if s.line >= |c| then c
    else match s
      case Minus(i) => Decrement(c, i)
      case Plus(i) => Increment(c, i)
  }

  function PressAll(c: CartStore.Cart, presses: seq<Stepper>): CartStore.Cart
    decreases |presses|
  {
    if presses == [] then c else PressAll(Press(c, presses[0]), presses[1..])
  }

  /** One stepper press keeps the cart valid and every line's product. */
  lemma PressKeepsValid(c: CartStore.Cart, s: Stepper)
    requires CartStore.Valid(c)
    ensures CartStore.Valid(Press(c, s))
    ensures |Press(c, s)| == |c|
    ensures forall j :: 0 <= j < |c| ==> Press(c, s)[j].product == c[j].product
  {
    if s.line < |c| {
      var i := s.line;
      CartStore.UpdateQuantityKeepsValid(c, c[i].product.id, if s.Minus? then Max(1, c[i].quantity - 1) else c[i].quantity + 1);
    }
  }

  /** From a valid cart, any sequence of stepper presses keeps every quantity at
      least 1, never removes or reorders a line, and never changes a snapshot. */
  lemma {:induction false} PressAllKeepsLines(c: CartStore.Cart, presses: seq<Stepper>)
    requires CartStore.Valid(c)
    ensures CartStore.Valid(PressAll(c, presses))
    ensures |PressAll(c, presses)| == |c|
    ensures forall j :: 0 <= j < |c| ==> PressAll(c, presses)[j].product == c[j].product
    decreases |presses|
  {
    if presses != [] {
      PressKeepsValid(c, presses[0]);
      PressAllKeepsLines(Press(c, presses[0]), presses[1..]);
    }
  }

  /** Where the 'Checkout' button leads. */
  datatype Route = Home | CheckoutForm

  /** `handleCheckout`: the checkout form only for a cart with at least one line;
      an empty cart shows an alert whose OK leads home. */
  function HandleCheckout(c: CartStore.Cart): (r: Route)
    ensures r == CheckoutForm <==> |c| >= 1
    ensures r == Home <==> c == []
  {
    if |c| == 0 then Home else CheckoutForm
  }

  /** The delete button of line `i`: `removeFromCart(item.id)`. */
  function HandleRemove(c: CartStore.Cart, i: nat): (r: CartStore.Cart)
    requires i < |c|
    ensures !CartStore.HasId(r, c[i].product.id)
    ensures forall j :: 0 <= j < |c| && c[j].product.id != c[i].product.id ==> c[j] in r
    ensures |r| < |c|
  {
    assert CartStore.HasId(c, c[i].product.id);
    CartStore.RemoveFromCart(c, c[i].product.id)
  }

  /** In a valid cart, deleting line `i` removes exactly that line. */
  lemma HandleRemoveDeletesThatLine(c: CartStore.Cart, i: nat)
    requires CartStore.Valid(c)
    requires i < |c|
    ensures HandleRemove(c, i) == c[..i] + c[i + 1..]
    ensures CartStore.Valid(HandleRemove(c, i))
  {
    CartStore.RemoveExactlyOne(c, i);
    CartStore.RemoveFromCartKeepsValid(c, c[i].product.id);
  }

  /** The two buttons of the clear-cart alert: 'Batal' and 'Hapus'. */
  datatype ClearChoice = Cancel | Confirm

  /** `handleClearCart`: only 'Hapus' calls `clearCart`. */
  function HandleClearCart(c: CartStore.Cart, choice: ClearChoice): (r: CartStore.Cart)
    ensures choice == Cancel ==> r == c
    ensures choice == Confirm ==> CartStore.TotalItems(r) == 0 && CartStore.TotalPrice(r) == 0
    ensures choice == Confirm ==> forall id :: !CartStore.HasId(r, id)
  {
    match choice
    case Cancel => c
    case Confirm => CartStore.ClearCart(c)
  }
}
