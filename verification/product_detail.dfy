/** The product page's state: the selected quantity (a stepper that never goes
    below 1), the selected size and color, and the 'Add to Cart' button. */
module ProductDetail {
  import opened Types
  import CartStore
  import opened Arith

  /** The page's local state. */
  datatype Detail = Detail(quantity: int, size: Option<string>, color: Option<string>)

  /** `list?.[0] || null`: the first entry, unless the list is absent or empty or
      its first entry is the (falsy) empty string. */
  function FirstOrNull(options: Option<seq<string>>): (r: Option<string>)
    ensures r.Some? <==> options.Some? && |options.value| > 0 && options.value[0] != ""
    ensures r.Some? ==> r.value == options.value[0]
  {
    match options
    case None => None
    case Some(list) => if |list| == 0 || list[0] == "" then None else Some(list[0])
  }

  /** The state when the page opens. */
  function Open(p: Product): (d: Detail)
    ensures d.quantity == 1
    ensures d.size == FirstOrNull(p.sizes) && d.color == FirstOrNull(p.colors)
  {
    Detail(1, FirstOrNull(p.sizes), FirstOrNull(p.colors))
  }

  /** The page's buttons. */
  datatype Action = Minus | Plus | PickSize(size: string) | PickColor(color: string)

  function Step(d: Detail, a: Action): (r: Detail)
    ensures a.Minus? ==> r.quantity >= 1 && (d.quantity <= 1 ==> r.quantity == 1)
    ensures a.Minus? && d.quantity > 1 ==> r.quantity == d.quantity - 1
    ensures a.Plus? ==> r.quantity == d.quantity + 1
    ensures !a.Minus? && !a.Plus? ==> r.quantity == d.quantity
    ensures d.quantity >= 1 ==> r.quantity >= 1
    ensures a.Minus? || a.Plus? ==> r.size == d.size && r.color == d.color
    ensures a.PickSize? ==> r.size == Some(a.size) && r.color == d.color
    ensures a.PickColor? ==> r.color == Some(a.color) && r.size == d.size
  {
    match a
    case Minus => d.(quantity := Max(1, d.quantity - 1))
    case Plus => d.(quantity := d.quantity + 1)
    case PickSize(s) => d.(size := Some(s))
    case PickColor(k) => d.(color := Some(k))
  }

  function Run(d: Detail, actions: seq<Action>): Detail
    decreases |actions|
  {
    if actions == [] then d else Run(Step(d, actions[0]), actions[1..])
  }

  /** From a quantity of at least 1, every quantity reachable by any presses
      stays at least 1 and rises by at most one per press. */
  lemma {:induction false} RunKeepsQuantityPositive(d: Detail, actions: seq<Action>)
    requires d.quantity >= 1
    ensures Run(d, actions).quantity >= 1
    ensures Run(d, actions).quantity <= d.quantity + |actions|
    decreases |actions|
  {
    if actions != [] {
      RunKeepsQuantityPositive(Step(d, actions[0]), actions[1..]);
    }
  }

  /** The quantity reached depends only on the starting quantity and the
      presses: picking a size or a color never changes it. */
  lemma {:induction false} QuantityIgnoresSelection(d1: Detail, d2: Detail, actions: seq<Action>)
    requires d1.quantity == d2.quantity
    ensures Run(d1, actions).quantity == Run(d2, actions).quantity
    decreases |actions|
  {
    if actions != [] {
      QuantityIgnoresSelection(Step(d1, actions[0]), Step(d2, actions[0]), actions[1..]);
    }
  }

  /** 'Add to Cart': `addToCart(product, quantity)`; the size and color are not
      passed. A line already holding the product gains the page's quantity, other
      lines are untouched, and an absent product is appended with that quantity. */
  function HandleAddToCart(c: CartStore.Cart, p: Product, d: Detail): (r: CartStore.Cart)
    ensures |r| == if CartStore.HasId(c, p.id) then |c| else |c| + 1
    ensures forall i :: 0 <= i < |c| && c[i].product.id == p.id ==> r[i].quantity == c[i].quantity + d.quantity
    ensures forall i :: 0 <= i < |c| && c[i].product.id != p.id ==> r[i] == c[i]
    ensures !CartStore.HasId(c, p.id) ==> r == c + [CartItem(p, d.quantity)]
  {
    CartStore.AddToCart(c, p, d.quantity)
  }

  /** Adding from a page reached by any presses keeps the cart valid and adds
      exactly the page's quantity; the selected size and color play no part. */
  lemma HandleAddToCartAddsQuantity(c: CartStore.Cart, p: Product, actions: seq<Action>)
    requires CartStore.Valid(c)
    ensures CartStore.Valid(HandleAddToCart(c, p, Run(Open(p), actions)))
    ensures CartStore.TotalItems(HandleAddToCart(c, p, Run(Open(p), actions)))
            == CartStore.TotalItems(c) + Run(Open(p), actions).quantity
    ensures forall size, color :: HandleAddToCart(c, p, Run(Open(p), actions).(size := size, color := color))
                                   == HandleAddToCart(c, p, Run(Open(p), actions))
  {
    var d := Run(Open(p), actions);
    RunKeepsQuantityPositive(Open(p), actions);
    CartStore.AddToCartKeepsValid(c, p, d.quantity);
    CartStore.AddToCartTotals(c, p, d.quantity);
  }
}
