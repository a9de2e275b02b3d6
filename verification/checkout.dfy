/** The checkout screen: the order summary rows, the required-field check of
    `handleCheckout`, and the cart clearing when the success alert is
    acknowledged. The simulated delay, the loading flag and the navigation
    reset are not modelled; the success path is one step. */
module Checkout {
  import opened Types
  import Seqs
  import CartStore

  /** The form's state. */
  datatype Form = Form(name: string, email: string, phone: string, address: string, useWhatsApp: bool)

  /** The state when the screen opens: four empty fields, WhatsApp confirmation on. */
  function InitialForm(): (f: Form)
    ensures f.name == "" && f.email == "" && f.phone == "" && f.address == ""
    ensures f.useWhatsApp
  {
    Form("", "", "", "", true)
  }

  /** Every text field is truthy, that is non-empty; white space counts as filled in. */
  predicate Complete(f: Form)
  {
    f.name != "" && f.email != "" && f.phone != "" && f.address != ""
  }

  datatype Outcome = Rejected | Placed

  /** Pressing the order button and acknowledging the result: an incomplete
      form is rejected and the cart stays; otherwise the order is placed and
      the OK of the success alert calls `clearCart`. */
  function HandleCheckout(f: Form, c: CartStore.Cart): (r: (Outcome, CartStore.Cart))
    ensures r.0 == Placed <==> f.name != "" && f.email != "" && f.phone != "" && f.address != ""
    ensures r.0 == Rejected ==> r.1 == c
    ensures r.0 == Placed ==> forall id :: !CartStore.HasId(r.1, id)
    ensures r.0 == Placed ==> CartStore.TotalItems(r.1) == 0 && CartStore.TotalPrice(r.1) == 0
  {
    if !Complete(f) then (Rejected, c) else (Placed, CartStore.ClearCart(c))
  }

  /** The WhatsApp switch plays no part in the outcome or the cart. */
  lemma WhatsAppIrrelevant(f: Form, c: CartStore.Cart)
    ensures forall b :: HandleCheckout(f.(useWhatsApp := b), c) == HandleCheckout(f, c)
  {
  }

  /** The screen as it opens rejects the order, whatever the cart holds. */
  lemma InitialFormRejected(c: CartStore.Cart)
    ensures HandleCheckout(InitialForm(), c) == (Rejected, c)
  {
  }

  /** The check never looks at the cart: a filled-in form places an order even
      for an empty cart. */
  lemma EmptyCartPlaced(f: Form)
    requires Complete(f)
    ensures HandleCheckout(f, []).0 == Placed
    ensures forall c :: HandleCheckout(f, c) == HandleCheckout(f, [])
  {
  }

  /** The amount shown on each summary row: `price * quantity`, in cart order. */
  function SummaryRows(c: CartStore.Cart): (r: seq<int>)
    ensures |r| == |c|
    ensures forall i :: 0 <= i < |c| ==> r[i] == c[i].product.price * c[i].quantity
  {
    if c == [] then [] else [CartStore.LineTotal(c[0])] + SummaryRows(c[1..])
  }

  /** The summary rows add up to the total shown under them (`getTotalPrice`). */
  lemma {:induction false} SummaryRowsSumToTotal(c: CartStore.Cart)
    ensures Seqs.Sum(SummaryRows(c)) == CartStore.TotalPrice(c)
  {
    if c != [] {
      var r := SummaryRows(c);
      assert r[1..] == SummaryRows(c[1..]);
      SummaryRowsSumToTotal(c[1..]);
    }
  }
}
