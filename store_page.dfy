/** The store page's order summary: one line per cart entry with its
    subtotal, and the cart total. The cart itself comes from the cart
    container, which is not part of this model; here it is an input. */
module StorePage {
  import opened JsBuiltins

  /** The fields of a cart entry the page reads. */
  datatype CartItem = CartItem(id: int, title: string, price: int, image: string, quantity: int)

  /** A summary line's amount, `item.price * item.quantity`. */
  function Subtotal(item: CartItem): (amount: int)
    ensures item.price >= 0 && item.quantity >= 0 ==> amount >= 0
    ensures item.price >= 1 && item.quantity >= 1 ==> amount >= item.price
  {
    var p, q := item.price, item.quantity;
    assert p * q == p * (q - 1) + p;
    assert p >= 0 && q >= 1 ==> p * (q - 1) >= 0;
    p * q
  }

  /** Entries that cannot make the total negative or zero: a positive price
      and a positive quantity. */
  predicate Priced(item: CartItem) {
    item.price >= 1 && item.quantity >= 1
  }

  /** `cart.reduce((total, item) => total + item.price * item.quantity, 0)`. */
  function CartTotal(cart: seq<CartItem>): (total: int)
    ensures total == Sum(cart, Subtotal)
    ensures cart == [] ==> total == 0
    ensures (forall item :: item in cart ==> item.price >= 0 && item.quantity >= 0) ==> total >= 0
  {
    ReduceIsSum(cart, Subtotal, 0);
    SubtotalsNonNegative(cart);
    ReduceSum(cart, Subtotal, 0)
  }

  lemma SubtotalsNonNegative(cart: seq<CartItem>)
    ensures (forall item :: item in cart ==> item.price >= 0 && item.quantity >= 0) ==> Sum(cart, Subtotal) >= 0
  {
    if forall item :: item in cart ==> item.price >= 0 && item.quantity >= 0 {
      SumNonNegative(cart, Subtotal);
    }
  }

  /** `cart.length === 0`: the page shows "Your store is empty" instead of
      the summary. */
  function ShowsEmptyMessage(cart: seq<CartItem>): (empty: bool)
    ensures empty <==> cart == []
  {
    |cart| == 0
  }

  /** Reordering the cart leaves the total unchanged. */
  lemma TotalIgnoresOrder(a: seq<CartItem>, b: seq<CartItem>)
    requires multiset(a) == multiset(b)
    ensures CartTotal(a) == CartTotal(b)
  {
    SumPermutation(a, b, Subtotal);
  }

  /** The total of two carts joined is the sum of their totals, so adding an
      entry adds exactly its subtotal. */
  lemma TotalOfJoin(a: seq<CartItem>, b: seq<CartItem>, item: CartItem)
    ensures CartTotal(a + b) == CartTotal(a) + CartTotal(b)
    ensures CartTotal(a + [item]) == CartTotal(a) + Subtotal(item)
  {
    SumConcat(a, b, Subtotal);
    SumConcat(a, [item], Subtotal);
    assert Sum([item], Subtotal) == Subtotal(item) + Sum([item][1..], Subtotal);
  }

  /** The empty message and a positive total exclude each other when every
      entry has a positive price and quantity: the total is at least the
      number of entries. */
  lemma {:induction false} TotalAtLeastCount(cart: seq<CartItem>)
    requires forall item :: item in cart ==> Priced(item)
    ensures CartTotal(cart) >= |cart|
    ensures ShowsEmptyMessage(cart) <==> CartTotal(cart) == 0
  {
    if cart != [] {
      TotalAtLeastCount(cart[1..]);
      assert Priced(cart[0]);
    }
  }
}
