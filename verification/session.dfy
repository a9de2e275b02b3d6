/** The cart as every screen drives it: a session is a sequence of the user
    actions that reach the store (the grid's ADD, the product page's 'Add to
    Cart', the cart screen's steppers, delete and clear buttons, and a placed
    order), and the store's invariant holds after any of them. */
module Session {
  import opened Types
  import CartStore
  import HomeScreen
  import ProductDetail
  import CartScreen
  import Checkout

  datatype UiAction =
    | GridAdd(product: Product)
    | DetailAdd(product: Product, presses: seq<ProductDetail.Action>)
    | CartStepper(stepper: CartScreen.Stepper)
    | CartRemove(line: nat)
    | CartClear(choice: CartScreen.ClearChoice)
    | PlaceOrder(form: Checkout.Form)

  /** The cart after one action; a delete button exists only for an existing
      line. Adding grows the cart by at most one line, a stepper keeps every
      line's product, deleting an existing line shortens the cart, 'Batal' and a
      rejected order leave the cart as it was, and 'Hapus' and a placed order
      empty it. */
  function Step(c: CartStore.Cart, a: UiAction): (r: CartStore.Cart)
    ensures a.GridAdd? || a.DetailAdd? ==> |c| <= |r| <= |c| + 1
    ensures a.CartStepper? ==> |r| == |c| && forall j :: 0 <= j < |c| ==> r[j].product == c[j].product
    ensures a.CartRemove? ==> |r| <= |c| && (a.line < |c| ==> |r| < |c|)
    ensures a.CartClear? ==> (a.choice == CartScreen.Cancel ==> r == c) && (a.choice == CartScreen.Confirm ==> r == [])
    ensures a.PlaceOrder? && !Checkout.Complete(a.form) ==> r == c
    ensures a.PlaceOrder? && Checkout.Complete(a.form) ==> r == []
  {
    match a
    case GridAdd(p) => HomeScreen.HandleAddToCart(c, p)
    case DetailAdd(p, presses) => ProductDetail.HandleAddToCart(c, p, ProductDetail.Run(ProductDetail.Open(p), presses))
    case CartStepper(s) => CartScreen.Press(c, s)
    case CartRemove(i) => if i < |c| then CartScreen.HandleRemove(c, i) else c
    case CartClear(choice) => CartScreen.HandleClearCart(c, choice)
    case PlaceOrder(f) => Checkout.HandleCheckout(f, c).1
  }

  function Run(c: CartStore.Cart, actions: seq<UiAction>): CartStore.Cart
    decreases |actions|
  {
    if actions == [] then c else Run(Step(c, actions[0]), actions[1..])
  }

  /** One action keeps identifiers unique and quantities positive. */
  lemma StepKeepsValid(c: CartStore.Cart, a: UiAction)
    requires CartStore.Valid(c)
    ensures CartStore.Valid(Step(c, a))
  {
    match a {
      case GridAdd(p) => HomeScreen.HandleAddToCartAddsOne(c, p);
      case DetailAdd(p, presses) => ProductDetail.HandleAddToCartAddsQuantity(c, p, presses);
      case CartStepper(s) => CartScreen.PressKeepsValid(c, s);
      case CartRemove(i) =>
        if i < |c| {
          CartScreen.HandleRemoveDeletesThatLine(c, i);
        }
      case CartClear(choice) =>
      case PlaceOrder(f) =>
    }
  }

  /** From the store's initial state, or any valid cart, no sequence of user
      actions produces a duplicate line or a quantity below 1. */
  lemma {:induction false} RunKeepsValid(c: CartStore.Cart, actions: seq<UiAction>)
    requires CartStore.Valid(c)
    ensures CartStore.Valid(Run(c, actions))
    ensures CartStore.TotalItems(Run(c, actions)) >= |Run(c, actions)|
    decreases |actions|
  {
    if actions != [] {
      StepKeepsValid(c, actions[0]);
      RunKeepsValid(Step(c, actions[0]), actions[1..]);
    }
  }

  /** Two of catalog product '1' at 450000 and one of product '4' at 350000
      come to 1250000 over three items. */
  lemma TwoLineExample(gamis: Product, khimar: Product)
    requires gamis.id == "1" && gamis.price == 450000
    requires khimar.id == "4" && khimar.price == 350000
    ensures var c := Run(CartStore.InitialItems(), [GridAdd(gamis), GridAdd(khimar), GridAdd(gamis)]);
            |c| == 2 && CartStore.TotalPrice(c) == 1250000 && CartStore.TotalItems(c) == 3
  {
    var c0 := CartStore.InitialItems();
    var actions := [GridAdd(gamis), GridAdd(khimar), GridAdd(gamis)];
    var c1 := Step(c0, GridAdd(gamis));
    var c2 := Step(c1, GridAdd(khimar));
    var c3 := Step(c2, GridAdd(gamis));
    assert c1 == [CartItem(gamis, 1)];
    assert !CartStore.HasId(c1, "4");
    assert c2 == [CartItem(gamis, 1), CartItem(khimar, 1)];
    assert CartStore.HasId(c2, "1");
    assert c3 == [CartItem(gamis, 2), CartItem(khimar, 1)];
    assert actions[1..][1..][1..] == [];
    assert Run(c2, actions[1..][1..]) == c3;
    assert Run(c0, actions) == c3;
    assert c3[1..] == [CartItem(khimar, 1)];
    assert CartStore.TotalPrice(c3[1..]) == 350000;
    assert CartStore.TotalItems(c3[1..]) == 1;
  }
}
