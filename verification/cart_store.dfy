/** The cart store: an ordered sequence of cart lines with four mutations
    (add, remove, update quantity, clear) and two derived sums (total price,
    total item count). Every mutation is a pure function from the old line
    sequence to the new one; the zustand `set`/`get` plumbing is not modelled. */
module CartStore {
  import opened Types
  import Seqs

  type Cart = seq<CartItem>

  /** Some line of `c` carries product identifier `id`. */
  predicate HasId(c: Cart, id: string)
  {
    exists i :: 0 <= i < |c| && c[i].product.id == id
  }

  /** At most one line per product identifier. */
  predicate IdsUnique(c: Cart)
  {
    forall i, j :: 0 <= i < |c| && 0 <= j < |c| && i != j ==> c[i].product.id != c[j].product.id
  }

  /** Every line has a quantity of at least 1. */
  predicate QuantitiesPositive(c: Cart)
  {
    forall i :: 0 <= i < |c| ==> c[i].quantity >= 1
  }

  /** The invariant the screens rely on: unique identifiers and positive quantities. */
  predicate Valid(c: Cart)
  {
    IdsUnique(c) && QuantitiesPositive(c)
  }

  /** The price of one line: unit price times quantity. */
  function LineTotal(l: CartItem): int
  {
    l.product.price * l.quantity
  }

  /** The sum of price × quantity over the lines. */
  function TotalPrice(c: Cart): (r: int)
    ensures (forall i :: 0 <= i < |c| ==> c[i].product.price >= 0 && c[i].quantity >= 0) ==> r >= 0
  {
    if c == [] then 0 else LineTotal(c[0]) + TotalPrice(c[1..])
  }

  /** The sum of the quantities over the lines. */
  function TotalItems(c: Cart): (r: int)
    ensures QuantitiesPositive(c) ==> r >= |c|
  {
    if c == [] then 0 else c[0].quantity + TotalItems(c[1..])
  }

  /** The store's initial state. */
  function InitialItems(): (r: Cart)
    ensures Valid(r)
    ensures forall id :: !HasId(r, id)
    ensures TotalPrice(r) == 0 && TotalItems(r) == 0
  {
    []
  }

  /** `items.find(item => item.id === id)`: the first line carrying `id`, if any. */
  function Find(c: Cart, id: string): (r: Option<CartItem>)
    ensures r.None? <==> !HasId(c, id)
    ensures r.Some? ==> exists i :: 0 <= i < |c| && c[i] == r.value && r.value.product.id == id
                                    && forall j :: 0 <= j < i ==> c[j].product.id != id
  {
    if c == [] then None
    else if c[0].product.id == id then Some(c[0])
    else
      var r := Find(c[1..], id);
      assert forall i :: 0 < i < |c| ==> c[i] == c[1..][i - 1];
      if r.Some? then
        var k :| 0 <= k < |c[1..]| && c[1..][k] == r.value && r.value.product.id == id
                 && forall j :: 0 <= j < k ==> c[1..][j].product.id != id;
        assert c[k + 1] == r.value;
        r
      else r
  }

  /** How a mapped line's quantity changes: `addToCart` adds, `updateQuantity` overwrites. */
  datatype QuantityChange = Increase(amount: int) | SetTo(value: int)
  {
    function Of(q: int): int
    {
      match this
      case Increase(amount) => q + amount
      case SetTo(value) => value
    }
  }

  /** Rewrites the quantity of every line carrying `id` with `f`; the other lines
      and every product snapshot are left as they are. This is the `items.map`
      shared by `addToCart` and `updateQuantity`. */
  function MapQuantity(c: Cart, id: string, f: QuantityChange): (r: Cart)
    ensures |r| == |c|
    ensures forall i :: 0 <= i < |c| ==> r[i].product == c[i].product
    ensures forall i :: 0 <= i < |c| && c[i].product.id == id ==> r[i].quantity == f.Of(c[i].quantity)
    ensures forall i :: 0 <= i < |c| && c[i].product.id != id ==> r[i] == c[i]
  {
    if c == [] then []
    else
      var head := if c[0].product.id == id then c[0].(quantity := f.Of(c[0].quantity)) else c[0];
      [head] + MapQuantity(c[1..], id, f)
  }

  /** `addToCart(product, quantity)`: accumulate onto the existing line for
      `product.id`, keeping that line's snapshot, or append a new line. */
  function AddToCart(c: Cart, p: Product, quantity: int): (r: Cart)
    ensures |r| == if HasId(c, p.id) then |c| else |c| + 1
    ensures HasId(c, p.id) ==> forall i :: 0 <= i < |c| ==> r[i].product == c[i].product
    ensures forall i :: 0 <= i < |c| && c[i].product.id == p.id ==> r[i].quantity == c[i].quantity + quantity
    ensures forall i :: 0 <= i < |c| && c[i].product.id != p.id ==> r[i] == c[i]
    ensures !HasId(c, p.id) ==> r[..|c|] == c && r[|c|] == CartItem(p, quantity)
  {
    match Find(c, p.id)
    case Some(_) => MapQuantity(c, p.id, Increase(quantity))
    case None => c + [CartItem(p, quantity)]
  }

  /** `removeFromCart(id)`: drop every line carrying `id`, keeping the rest in order. */
  function RemoveFromCart(c: Cart, id: string): (r: Cart)
    ensures !HasId(r, id)
    ensures forall l :: l in r <==> l in c && l.product.id != id
    ensures multiset(r) <= multiset(c)
    ensures !HasId(c, id) ==> r == c
    ensures HasId(c, id) ==> |r| < |c|
  {
    var r := Seqs.Filter(c, (l: CartItem) => l.product.id != id);
    assert forall i :: 0 <= i < |r| ==> r[i] in r;
    r
  }

  /** `updateQuantity(id, quantity)`: overwrite the quantity of the lines carrying
      `id` with exactly `quantity`. There is no clamping. */
  function UpdateQuantity(c: Cart, id: string, quantity: int): (r: Cart)
    ensures |r| == |c|
    ensures forall i :: 0 <= i < |c| && c[i].product.id == id ==> r[i] == c[i].(quantity := quantity)
    ensures forall i :: 0 <= i < |c| && c[i].product.id != id ==> r[i] == c[i]
    ensures !HasId(c, id) ==> r == c
  {
    MapQuantity(c, id, SetTo(quantity))
  }

  /** `clearCart()`. */
  function ClearCart(c: Cart): (r: Cart)
    ensures forall id :: !HasId(r, id)
    ensures TotalPrice(r) == 0 && TotalItems(r) == 0
  {
    []
  }

  /** `getTotalPrice()`: the `reduce` from the left, `total + price * quantity`, starting at 0. */
  method GetTotalPrice(c: Cart) returns (total: int)
    ensures total == TotalPrice(c)
  {
    total := 0;
    var i := 0;
    while i < |c|
      invariant 0 <= i <= |c|
      invariant total == TotalPrice(c[..i])
    {
      assert c[..i + 1] == c[..i] + [c[i]];
      TotalPriceAppend(c[..i], [c[i]]);
      total := total + LineTotal(c[i]);
      i := i + 1;
    }
    assert c[..i] == c;
  }

  /** `getTotalItems()`: the `reduce` from the left, `total + quantity`, starting at 0. */
  method GetTotalItems(c: Cart) returns (total: int)
    ensures total == TotalItems(c)
  {
    total := 0;
    var i := 0;
    while i < |c|
      invariant 0 <= i <= |c|
      invariant total == TotalItems(c[..i])
    {
      assert c[..i + 1] == c[..i] + [c[i]];
      TotalItemsAppend(c[..i], [c[i]]);
      total := total + c[i].quantity;
      i := i + 1;
    }
    assert c[..i] == c;
  }

  // ---------------------------------------------------------------------------
  // Totals

  /** The total price of a concatenation is the sum of the parts' totals. */
  lemma {:induction false} TotalPriceAppend(a: Cart, b: Cart)
    ensures TotalPrice(a + b) == TotalPrice(a) + TotalPrice(b)
  {
    if a == [] {
      assert a + b == b;
    } else {
      assert (a + b)[0] == a[0];
      assert (a + b)[1..] == a[1..] + b;
      TotalPriceAppend(a[1..], b);
    }
  }

  /** The item count of a concatenation is the sum of the parts' counts. */
  lemma {:induction false} TotalItemsAppend(a: Cart, b: Cart)
    ensures TotalItems(a + b) == TotalItems(a) + TotalItems(b)
  {
    if a == [] {
      assert a + b == b;
    } else {
      assert (a + b)[0] == a[0];
      assert (a + b)[1..] == a[1..] + b;
      TotalItemsAppend(a[1..], b);
    }
  }

  /** Identifiers are unique in a non-empty cart exactly when the tail's are
      and the head's identifier does not occur in the tail. */
  lemma IdsUniqueCons(c: Cart)
    requires |c| > 0
    ensures IdsUnique(c) <==> IdsUnique(c[1..]) && !HasId(c[1..], c[0].product.id)
  {
    if IdsUnique(c) {
      forall i | 0 <= i < |c[1..]|
        ensures c[1..][i].product.id != c[0].product.id
      {
        assert c[1..][i] == c[i + 1];
      }
      forall i, j | 0 <= i < |c[1..]| && 0 <= j < |c[1..]| && i != j
        ensures c[1..][i].product.id != c[1..][j].product.id
      {
        assert c[1..][i] == c[i + 1] && c[1..][j] == c[j + 1];
      }
    }
    if IdsUnique(c[1..]) && !HasId(c[1..], c[0].product.id) {
      forall i, j | 0 <= i < |c| && 0 <= j < |c| && i != j
        ensures c[i].product.id != c[j].product.id
      {
        if i == 0 {
          assert c[j] == c[1..][j - 1];
        } else if j == 0 {
          assert c[i] == c[1..][i - 1];
        } else {
          assert c[i] == c[1..][i - 1] && c[j] == c[1..][j - 1];
        }
      }
    }
  }

  /** When `id` occurs in no line, rewriting its quantity changes nothing. */
  lemma MapQuantityAbsent(c: Cart, id: string, f: QuantityChange)
    requires !HasId(c, id)
    ensures MapQuantity(c, id, f) == c
  {
  }

  /** With unique identifiers, rewriting the quantity of the line `l` found for
      `id` changes the item count by exactly that line's difference. */
  lemma {:induction false} MapQuantityItems(c: Cart, id: string, f: QuantityChange, l: CartItem)
    requires IdsUnique(c)
    requires Find(c, id) == Some(l)
    ensures TotalItems(MapQuantity(c, id, f)) == TotalItems(c) - l.quantity + f.Of(l.quantity)
  {
    var r := MapQuantity(c, id, f);
    assert r[1..] == MapQuantity(c[1..], id, f);
    IdsUniqueCons(c);
    if c[0].product.id == id {
      MapQuantityAbsent(c[1..], id, f);
    } else {
      MapQuantityItems(c[1..], id, f, l);
    }
  }

  /** With unique identifiers, rewriting the quantity of the line `l` found for
      `id` changes the total price by that line's price times the difference. */
  lemma {:induction false} MapQuantityPrice(c: Cart, id: string, f: QuantityChange, l: CartItem)
    requires IdsUnique(c)
    requires Find(c, id) == Some(l)
    ensures TotalPrice(MapQuantity(c, id, f)) == TotalPrice(c) - LineTotal(l) + LineTotal(l.(quantity := f.Of(l.quantity)))
  {
    var r := MapQuantity(c, id, f);
    assert r[1..] == MapQuantity(c[1..], id, f);
    IdsUniqueCons(c);
    if c[0].product.id == id {
      MapQuantityAbsent(c[1..], id, f);
      assert r[0] == l.(quantity := f.Of(l.quantity));
    } else {
      MapQuantityPrice(c[1..], id, f, l);
    }
  }

  // ---------------------------------------------------------------------------
  // addToCart

  /** `addToCart` keeps at most one line per identifier, and keeps quantities
      positive when it is passed a positive quantity. */
  lemma AddToCartKeepsValid(c: Cart, p: Product, quantity: int)
    ensures IdsUnique(c) ==> IdsUnique(AddToCart(c, p, quantity))
    ensures Valid(c) && quantity >= 1 ==> Valid(AddToCart(c, p, quantity))
  {
    var r := AddToCart(c, p, quantity);
    if IdsUnique(c) && !HasId(c, p.id) {
      forall i, j | 0 <= i < |r| && 0 <= j < |r| && i != j
        ensures r[i].product.id != r[j].product.id
      {
        if i < |c| && j < |c| {
          assert r[i] == c[i] && r[j] == c[j];
        } else if i < |c| {
          assert r[i] == c[i];
        } else {
          assert r[j] == c[j];
        }
      }
    }
  }

  /** After `addToCart(p, q)` the item count rises by exactly `q`, and the total
      price by `q` times the stored line's price (the first snapshot's), or
      `p.price` when the line is new. */
  lemma AddToCartTotals(c: Cart, p: Product, quantity: int)
    requires IdsUnique(c)
    ensures TotalItems(AddToCart(c, p, quantity)) == TotalItems(c) + quantity
    ensures TotalPrice(AddToCart(c, p, quantity)) == TotalPrice(c) + quantity * StoredPrice(c, p)
  {
    match Find(c, p.id)
    case Some(l) =>
      assert StoredPrice(c, p) == l.product.price;
      AddToCartTotalsPresent(c, p, quantity, l);
    case None =>
      var line := CartItem(p, quantity);
      assert AddToCart(c, p, quantity) == c + [line];
      TotalItemsAppend(c, [line]);
      TotalPriceAppend(c, [line]);
      assert TotalPrice([line]) == p.price * quantity;
      assert StoredPrice(c, p) == p.price;
  }

  /** The unit price `addToCart(p, _)` charges: the stored line's, else `p.price`. */
  function StoredPrice(c: Cart, p: Product): int
  {
    match Find(c, p.id)
    case Some(l) => l.product.price
    case None => p.price
  }

  lemma AddToCartTotalsPresent(c: Cart, p: Product, quantity: int, l: CartItem)
    requires IdsUnique(c)
    requires Find(c, p.id) == Some(l)
    ensures TotalItems(AddToCart(c, p, quantity)) == TotalItems(c) + quantity
    ensures TotalPrice(AddToCart(c, p, quantity)) == TotalPrice(c) + quantity * l.product.price
  {
    var f := Increase(quantity);
    var r := MapQuantity(c, p.id, f);
    assert AddToCart(c, p, quantity) == r;
    MapQuantityItems(c, p.id, f, l);
    MapQuantityPrice(c, p.id, f, l);
    LineTotalIncrease(l, quantity);
    assert l.(quantity := f.Of(l.quantity)) == l.(quantity := l.quantity + quantity);
    assert TotalPrice(r) == TotalPrice(c) + quantity * l.product.price;
  }

  lemma LineTotalIncrease(l: CartItem, amount: int)
    ensures LineTotal(l.(quantity := l.quantity + amount)) == LineTotal(l) + amount * l.product.price
  {
    var price, q := l.product.price, l.quantity;
    assert price * (q + amount) == price * q + price * amount;
  }

  /** The accumulation law for one call, when the product is present: the line
      for `p.id` afterwards is the old line, same snapshot, with `quantity` added. */
  lemma AddToCartAccumulatesPresent(c: Cart, p: Product, quantity: int, l: CartItem)
    requires IdsUnique(c)
    requires Find(c, p.id) == Some(l)
    ensures HasId(c, p.id)
    ensures Find(AddToCart(c, p, quantity), p.id) == Some(l.(quantity := l.quantity + quantity))
    ensures QuantityOf(c, p.id) == l.quantity
    ensures QuantityOf(AddToCart(c, p, quantity), p.id) == l.quantity + quantity
  {
    var r := AddToCart(c, p, quantity);
    AddToCartKeepsValid(c, p, quantity);
    var i :| 0 <= i < |c| && c[i] == l && l.product.id == p.id;
    assert r[i] == l.(quantity := l.quantity + quantity);
    FindUnique(r, p.id, i);
  }

  /** The accumulation law for one call, when the product is absent: the line
      for `p.id` afterwards is the fresh line `CartItem(p, quantity)`. */
  lemma AddToCartAccumulatesAbsent(c: Cart, p: Product, quantity: int)
    requires IdsUnique(c)
    requires Find(c, p.id).None?
    ensures !HasId(c, p.id)
    ensures Find(AddToCart(c, p, quantity), p.id) == Some(CartItem(p, quantity))
    ensures QuantityOf(c, p.id) == 0
    ensures QuantityOf(AddToCart(c, p, quantity), p.id) == quantity
  {
    var r := AddToCart(c, p, quantity);
    AddToCartKeepsValid(c, p, quantity);
    FindUnique(r, p.id, |c|);
  }

  /** With unique identifiers, the line found for `id` is the one at any index carrying `id`. */
  lemma FindUnique(c: Cart, id: string, i: int)
    requires IdsUnique(c)
    requires 0 <= i < |c| && c[i].product.id == id
    ensures Find(c, id) == Some(c[i])
  {
  }

  /** `addToCart` called once per quantity in `qs`, in order. */
  function AddAll(c: Cart, p: Product, qs: seq<int>): Cart
    decreases |qs|
  {
    if qs == [] then c else AddAll(AddToCart(c, p, qs[0]), p, qs[1..])
  }

  /** The quantity held for `id`, 0 when there is no line. */
  function QuantityOf(c: Cart, id: string): int
  {
    match Find(c, id)
    case Some(l) => l.quantity
    case None => 0
  }

  /** The accumulation law: repeated additions of one product sum their quantities. */
  lemma {:induction false} AddAllAccumulates(c: Cart, p: Product, qs: seq<int>)
    decreases |qs|
    requires IdsUnique(c)
    ensures IdsUnique(AddAll(c, p, qs))
    ensures QuantityOf(AddAll(c, p, qs), p.id) == QuantityOf(c, p.id) + Seqs.Sum(qs)
    ensures |qs| > 0 ==> HasId(AddAll(c, p, qs), p.id)
  {
    if qs != [] {
      var c' := AddToCart(c, p, qs[0]);
      AddToCartKeepsValid(c, p, qs[0]);
      if Find(c, p.id).Some? {
        AddToCartAccumulatesPresent(c, p, qs[0], Find(c, p.id).value);
      } else {
        AddToCartAccumulatesAbsent(c, p, qs[0]);
      }
      AddAllAccumulates(c', p, qs[1..]);
    }
  }

  // ---------------------------------------------------------------------------
  // removeFromCart

  /** Removal distributes over concatenation: the surviving lines keep their order. */
  lemma RemoveFromCartAppend(a: Cart, b: Cart, id: string)
    ensures RemoveFromCart(a + b, id) == RemoveFromCart(a, id) + RemoveFromCart(b, id)
  {
    Seqs.FilterAppend(a, b, (l: CartItem) => l.product.id != id);
  }

  /** Adding a product that was absent and then removing it restores the cart. */
  lemma RemoveAfterAdd(c: Cart, p: Product, quantity: int)
    requires !HasId(c, p.id)
    ensures RemoveFromCart(AddToCart(c, p, quantity), p.id) == c
  {
    RemoveFromCartAppend(c, [CartItem(p, quantity)], p.id);
    assert RemoveFromCart([CartItem(p, quantity)], p.id) == [];
  }

  /** When the product was already present, add-then-remove deletes its whole
      line: the result is the cart without that line, never the original cart. */
  lemma RemoveAfterAddPresent(c: Cart, p: Product, quantity: int)
    requires HasId(c, p.id)
    ensures RemoveFromCart(AddToCart(c, p, quantity), p.id) == RemoveFromCart(c, p.id)
    ensures RemoveFromCart(AddToCart(c, p, quantity), p.id) != c
  {
    RemoveIgnoresMapQuantity(c, p.id, Increase(quantity));
  }

  lemma {:induction false} RemoveIgnoresMapQuantity(c: Cart, id: string, f: QuantityChange)
    ensures RemoveFromCart(MapQuantity(c, id, f), id) == RemoveFromCart(c, id)
  {
    if c != [] {
      var m := MapQuantity(c, id, f);
      assert m == [m[0]] + m[1..];
      assert c == [c[0]] + c[1..];
      assert m[1..] == MapQuantity(c[1..], id, f);
      RemoveFromCartAppend([m[0]], m[1..], id);
      RemoveFromCartAppend([c[0]], c[1..], id);
      RemoveIgnoresMapQuantity(c[1..], id, f);
      if c[0].product.id == id {
        assert RemoveFromCart([m[0]], id) == [] == RemoveFromCart([c[0]], id);
      } else {
        assert m[0] == c[0];
      }
    }
  }

  /** With unique identifiers, removing the identifier of line `i` deletes exactly that line. */
  lemma RemoveExactlyOne(c: Cart, i: int)
    requires IdsUnique(c)
    requires 0 <= i < |c|
    ensures RemoveFromCart(c, c[i].product.id) == c[..i] + c[i + 1..]
  {
    var id := c[i].product.id;
    var before, line, after := c[..i], [c[i]], c[i + 1..];
    assert c == before + (line + after);
    assert !HasId(before, id) by {
      forall j | 0 <= j < |before| ensures before[j].product.id != id { assert before[j] == c[j]; }
    }
    assert !HasId(after, id) by {
      forall j | 0 <= j < |after| ensures after[j].product.id != id { assert after[j] == c[i + 1 + j]; }
    }
    assert RemoveFromCart(line, id) == [];
    RemoveFromCartAppend(line, after, id);
    assert RemoveFromCart(line + after, id) == after;
    RemoveFromCartAppend(before, line + after, id);
  }

  /** Removal keeps every remaining line's quantity positive. */
  lemma RemoveFromCartKeepsPositive(c: Cart, id: string)
    requires QuantitiesPositive(c)
    ensures QuantitiesPositive(RemoveFromCart(c, id))
  {
    var r := RemoveFromCart(c, id);
    forall i | 0 <= i < |r| ensures r[i].quantity >= 1 {
      assert r[i] in r;
      var k :| 0 <= k < |c| && c[k] == r[i];
    }
  }

  /** Removal adds no identifier. */
  lemma RemoveFromCartKeepsAbsent(c: Cart, id: string, other: string)
    requires !HasId(c, other)
    ensures !HasId(RemoveFromCart(c, id), other)
  {
    var r := RemoveFromCart(c, id);
    forall j | 0 <= j < |r| ensures r[j].product.id != other {
      assert r[j] in r;
    }
  }

  /** Removal splits at the first line. */
  lemma RemoveFromCartCons(c: Cart, id: string)
    requires c != []
    ensures RemoveFromCart(c, id) == (if c[0].product.id == id then [] else [c[0]]) + RemoveFromCart(c[1..], id)
  {
    assert c == [c[0]] + c[1..];
    RemoveFromCartAppend([c[0]], c[1..], id);
    if c[0].product.id == id {
      assert RemoveFromCart([c[0]], id) == [];
    } else {
      assert RemoveFromCart([c[0]], id) == [c[0]];
    }
  }

  /** Removal keeps identifiers unique. */
  lemma {:induction false} RemoveFromCartKeepsUnique(c: Cart, id: string)
    requires IdsUnique(c)
    ensures IdsUnique(RemoveFromCart(c, id))
  {
    if c != [] {
      IdsUniqueCons(c);
      RemoveFromCartKeepsUnique(c[1..], id);
      RemoveFromCartCons(c, id);
      var tail := RemoveFromCart(c[1..], id);
      if c[0].product.id != id {
        RemoveFromCartKeepsAbsent(c[1..], id, c[0].product.id);
        IdsUniqueCons([c[0]] + tail);
        assert ([c[0]] + tail)[1..] == tail;
      } else {
        assert [] + tail == tail;
      }
    }
  }

  /** Removal keeps the cart valid. */
  lemma RemoveFromCartKeepsValid(c: Cart, id: string)
    ensures IdsUnique(c) ==> IdsUnique(RemoveFromCart(c, id))
    ensures Valid(c) ==> Valid(RemoveFromCart(c, id))
  {
    if IdsUnique(c) { RemoveFromCartKeepsUnique(c, id); }
    if Valid(c) { RemoveFromCartKeepsPositive(c, id); }
  }

  // ---------------------------------------------------------------------------
  // updateQuantity

  /** `updateQuantity` overwrites: the line for `id` afterwards holds exactly
      `quantity` (even 0 or a negative number), and the item count changes by
      the difference. */
  lemma UpdateQuantityOverwrites(c: Cart, id: string, quantity: int)
    requires IdsUnique(c)
    requires HasId(c, id)
    ensures IdsUnique(UpdateQuantity(c, id, quantity))
    ensures Find(UpdateQuantity(c, id, quantity), id) == Some(Find(c, id).value.(quantity := quantity))
    ensures TotalItems(UpdateQuantity(c, id, quantity)) == TotalItems(c) - QuantityOf(c, id) + quantity
  {
    var l := Find(c, id).value;
    UpdateQuantityKeepsValid(c, id, quantity);
    UpdateQuantityFindsLine(c, id, quantity, l);
    MapQuantityItems(c, id, SetTo(quantity), l);
  }

  lemma UpdateQuantityFindsLine(c: Cart, id: string, quantity: int, l: CartItem)
    requires IdsUnique(c)
    requires Find(c, id) == Some(l)
    ensures Find(UpdateQuantity(c, id, quantity), id) == Some(l.(quantity := quantity))
  {
    var r := UpdateQuantity(c, id, quantity);
    UpdateQuantityKeepsValid(c, id, quantity);
    var i :| 0 <= i < |c| && c[i] == l && l.product.id == id;
    FindUnique(r, id, i);
  }

  /** `updateQuantity` with a positive quantity keeps the cart valid. */
  lemma UpdateQuantityKeepsValid(c: Cart, id: string, quantity: int)
    ensures IdsUnique(c) ==> IdsUnique(UpdateQuantity(c, id, quantity))
    ensures Valid(c) && quantity >= 1 ==> Valid(UpdateQuantity(c, id, quantity))
  {
    var r := UpdateQuantity(c, id, quantity);
    assert forall k :: 0 <= k < |c| ==> r[k].product == c[k].product;
  }

  // ---------------------------------------------------------------------------
  // Any sequence of store calls

  datatype StoreCall =
    | Add(product: Product, quantity: int)
    | Remove(id: string)
    | Update(id: string, quantity: int)
    | Clear

  function Apply(c: Cart, call: StoreCall): Cart
  {
    match call
    case Add(p, q) => AddToCart(c, p, q)
    case Remove(id) => RemoveFromCart(c, id)
    case Update(id, q) => UpdateQuantity(c, id, q)
    case Clear => ClearCart(c)
  }

  function ApplyAll(c: Cart, calls: seq<StoreCall>): Cart
    decreases |calls|
  {
    if calls == [] then c else ApplyAll(Apply(c, calls[0]), calls[1..])
  }

  /** Every quantity a call passes is at least 1. */
  predicate PositiveCalls(calls: seq<StoreCall>)
  {
    forall k :: 0 <= k < |calls| ==> (calls[k].Add? || calls[k].Update?) ==> calls[k].quantity >= 1
  }

  /** From a valid cart, any sequence of store calls keeps identifiers unique,
      and keeps quantities positive when every call passes a quantity of at least 1. */
  lemma {:induction false} ApplyAllKeepsValid(c: Cart, calls: seq<StoreCall>)
    ensures IdsUnique(c) ==> IdsUnique(ApplyAll(c, calls))
    ensures Valid(c) && PositiveCalls(calls) ==> Valid(ApplyAll(c, calls))
    decreases |calls|
  {
    if calls != [] {
      var c' := Apply(c, calls[0]);
      assert PositiveCalls(calls) && (calls[0].Add? || calls[0].Update?) ==> calls[0].quantity >= 1;
      match calls[0] {
        case Add(p, q) => AddToCartKeepsValid(c, p, q);
        case Remove(id) => RemoveFromCartKeepsValid(c, id);
        case Update(id, q) => UpdateQuantityKeepsValid(c, id, q);
        case Clear =>
      }
      assert PositiveCalls(calls) ==> PositiveCalls(calls[1..]) by {
        if PositiveCalls(calls) {
          forall k | 0 <= k < |calls[1..]| ensures (calls[1..][k].Add? || calls[1..][k].Update?) ==> calls[1..][k].quantity >= 1 {
            assert calls[1..][k] == calls[k + 1];
          }
        }
      }
      ApplyAllKeepsValid(c', calls[1..]);
    }
  }
}
