/** The client cart: a list of lines, one per book, each the book as listed
    plus the quantity wanted. Every operation builds a new list. */
module Cart {
  import opened Common
  import opened Seqs
  import opened Model
  import Orders

  /** `{ ...book, quantity }`: the book as it was listed when added. */
  datatype CartItem = CartItem(book: Book, quantity: int)

  function Id(item: CartItem): BookId {
    item.book.id
  }

  /** `cart.find(item => item.id === id)`, as the position of the first match. */
  function Find(cart: seq<CartItem>, id: BookId): (r: Option<nat>)
    ensures r.Some? ==> r.value < |cart| && Id(cart[r.value]) == id
    ensures r.Some? ==> forall i :: 0 <= i < r.value ==> Id(cart[i]) != id
    ensures r.None? ==> forall i :: 0 <= i < |cart| ==> Id(cart[i]) != id
  {
    if cart == [] then None
    else if Id(cart[0]) == id then Some(0)
    else match Find(cart[1..], id)
      case None => None
      case Some(k) => Some(k + 1)
  }

  /** No two lines for the same book. */
  ghost predicate UniqueIds(cart: seq<CartItem>) {
    forall i, j :: 0 <= i < j < |cart| ==> Id(cart[i]) != Id(cart[j])
  }

  /** The `map` of `addToCart`: every line for `id` gains `q`. */
  function Bump(cart: seq<CartItem>, id: BookId, q: int): (r: seq<CartItem>)
    ensures |r| == |cart|
    ensures forall i :: 0 <= i < |cart| ==>
      r[i].book == cart[i].book && r[i].quantity == cart[i].quantity + (if Id(cart[i]) == id then q else 0)
  {
    if cart == [] then []
    else
      var head := if Id(cart[0]) == id then cart[0].(quantity := cart[0].quantity + q) else cart[0];
      [head] + Bump(cart[1..], id, q)
  }

  /** `addToCart(book, quantity = 1)`: a book already in the cart gets the
      quantity added to its line, which keeps its place; a new book is
      appended as a new last line. */
  function AddToCart(cart: seq<CartItem>, book: Book, quantity: Option<int>): (r: seq<CartItem>)
    ensures Find(cart, book.id).Some? ==> r == Bump(cart, book.id, quantity.GetOr(1))
    ensures Find(cart, book.id).None? ==> r == cart + [CartItem(book, quantity.GetOr(1))]
  {
    var q := quantity.GetOr(1);
    if Find(cart, book.id).Some? then Bump(cart, book.id, q)
    else cart + [CartItem(book, q)]
  }

  function NotId(id: BookId): CartItem -> bool {
    (item: CartItem) => Id(item) != id
  }

  /** `cart.filter(item => item.id !== bookId)`. */
  function RemoveFromCart(cart: seq<CartItem>, id: BookId): (r: seq<CartItem>)
    ensures |r| <= |cart|
    ensures forall i :: 0 <= i < |r| ==> Id(r[i]) != id && r[i] in cart
    ensures forall i :: 0 <= i < |cart| && Id(cart[i]) != id ==> cart[i] in r
  {
    var r := Filter(cart, NotId(id));
    FilterMembers(cart, NotId(id));
    assert forall i :: 0 <= i < |r| ==> NotId(id)(r[i]);
    r
  }

  /** The `map` of `updateQuantity`: every line for `id` gets quantity `q`. */
  function SetQuantity(cart: seq<CartItem>, id: BookId, q: int): (r: seq<CartItem>)
    ensures |r| == |cart|
    ensures forall i :: 0 <= i < |cart| ==>
      r[i].book == cart[i].book && r[i].quantity == (if Id(cart[i]) == id then q else cart[i].quantity)
  {
    if cart == [] then []
    else
      var head := if Id(cart[0]) == id then cart[0].(quantity := q) else cart[0];
      [head] + SetQuantity(cart[1..], id, q)
  }

  /** `updateQuantity(bookId, quantity)`: a quantity of zero or less removes the line. */
  function UpdateQuantity(cart: seq<CartItem>, id: BookId, q: int): (r: seq<CartItem>)
    ensures q <= 0 ==> r == RemoveFromCart(cart, id)
    ensures q > 0 ==> r == SetQuantity(cart, id, q)
  {
    if q <= 0 then RemoveFromCart(cart, id) else SetQuantity(cart, id, q)
  }

  function ItemTotal(item: CartItem): int {
    item.book.price * item.quantity
  }

  function ItemQuantity(item: CartItem): int {
    item.quantity
  }

  /** `getTotalPrice`, in integer cents: an empty cart costs nothing, and a
      cart of non-negative prices and quantities never costs less than nothing. */
  function TotalPrice(cart: seq<CartItem>): (r: int)
    ensures cart == [] ==> r == 0
    ensures (forall i :: 0 <= i < |cart| ==> cart[i].book.price >= 0 && cart[i].quantity >= 0) ==> r >= 0
  {
    CartSumsNonNegative(cart);
    Sum(cart, ItemTotal)
  }

  /** `getTotalItems`: an empty cart holds no items, and non-negative
      quantities give a non-negative count. */
  function TotalItems(cart: seq<CartItem>): (r: int)
    ensures cart == [] ==> r == 0
    ensures (forall i :: 0 <= i < |cart| ==> cart[i].quantity >= 0) ==> r >= 0
  {
    CartSumsNonNegative(cart);
    Sum(cart, ItemQuantity)
  }

  /** Non-negative prices and quantities give non-negative sums. */
  lemma CartSumsNonNegative(cart: seq<CartItem>)
    ensures (forall i :: 0 <= i < |cart| ==> cart[i].book.price >= 0 && cart[i].quantity >= 0) ==> Sum(cart, ItemTotal) >= 0
    ensures (forall i :: 0 <= i < |cart| ==> cart[i].quantity >= 0) ==> Sum(cart, ItemQuantity) >= 0
  {
    if forall i :: 0 <= i < |cart| ==> cart[i].book.price >= 0 && cart[i].quantity >= 0 {
      assert forall i :: 0 <= i < |cart| ==> ItemTotal(cart[i]) >= 0;
      SumNonNegative(cart, ItemTotal);
    }
    if forall i :: 0 <= i < |cart| ==> cart[i].quantity >= 0 {
      SumNonNegative(cart, ItemQuantity);
    }
  }

  /** `clearCart` empties the cart, so both totals drop to zero. */
  function ClearCart(cart: seq<CartItem>): (r: seq<CartItem>)
    ensures r == [] && TotalPrice(r) == 0 && TotalItems(r) == 0
  {
    []
  }

  // ---------------------------------------------------------------------------
  // Laws of the single operations

  /** Removing a book that is not in the cart changes nothing. */
  lemma RemoveAbsent(cart: seq<CartItem>, id: BookId)
    requires Find(cart, id).None?
    ensures RemoveFromCart(cart, id) == cart
  {
    FilterAll(cart, NotId(id));
  }

  /** In a cart without duplicates, removing a present book drops exactly its
      line and keeps every other line in order. */
  lemma {:induction false} RemovePresent(cart: seq<CartItem>, id: BookId)
    requires UniqueIds(cart) && Find(cart, id).Some?
    ensures var k := Find(cart, id).value;
      RemoveFromCart(cart, id) == cart[..k] + cart[k + 1..]
  {
    var k := Find(cart, id).value;
    var before, after := cart[..k], cart[k + 1..];
    assert cart == before + [cart[k]] + after;
    forall i | 0 <= i < |after| ensures NotId(id)(after[i]) {
      assert after[i] == cart[k + 1 + i];
    }
    FilterDropOne(before, cart[k], after, NotId(id));
  }

  /** Adding to a book already in a cart without duplicates adds the quantity
      to the item count once. */
  lemma {:induction false} BumpTotalItems(cart: seq<CartItem>, id: BookId, q: int)
    requires UniqueIds(cart) && Find(cart, id).Some?
    ensures TotalItems(Bump(cart, id, q)) == TotalItems(cart) + q
  {
    var r := Bump(cart, id, q);
    if Id(cart[0]) == id {
      BumpAbsent(cart[1..], id, q);
      assert r[1..] == Bump(cart[1..], id, q);
    } else {
      BumpTotalItems(cart[1..], id, q);
      assert r[1..] == Bump(cart[1..], id, q);
    }
  }

  lemma BumpAbsent(cart: seq<CartItem>, id: BookId, q: int)
    requires forall i :: 0 <= i < |cart| ==> Id(cart[i]) != id
    ensures Bump(cart, id, q) == cart
  {
  }

  /** Adding a new book adds its quantity to the item count and its price
      times quantity to the total price. */
  lemma AppendTotals(cart: seq<CartItem>, book: Book, q: int)
    ensures TotalItems(cart + [CartItem(book, q)]) == TotalItems(cart) + q
    ensures TotalPrice(cart + [CartItem(book, q)]) == TotalPrice(cart) + book.price * q
  {
    SumConcat(cart, [CartItem(book, q)], ItemQuantity);
    SumConcat(cart, [CartItem(book, q)], ItemTotal);
  }

  /** `addToCart` adds exactly the given quantity (default 1) to the item
      count, whether or not the book was already there. */
  lemma AddTotalItems(cart: seq<CartItem>, book: Book, quantity: Option<int>)
    requires UniqueIds(cart)
    ensures TotalItems(AddToCart(cart, book, quantity)) == TotalItems(cart) + quantity.GetOr(1)
  {
    var q := quantity.GetOr(1);
    if Find(cart, book.id).Some? {
      BumpTotalItems(cart, book.id, q);
    } else {
      AppendTotals(cart, book, q);
    }
  }

  // ---------------------------------------------------------------------------
  // No duplicate lines

  lemma AddKeepsUnique(cart: seq<CartItem>, book: Book, quantity: Option<int>)
    requires UniqueIds(cart)
    ensures UniqueIds(AddToCart(cart, book, quantity))
  {
    var r := AddToCart(cart, book, quantity);
    if Find(cart, book.id).None? {
      assert forall i :: 0 <= i < |cart| ==> r[i] == cart[i];
    }
  }

  lemma {:induction false} RemoveKeepsUnique(cart: seq<CartItem>, id: BookId)
    requires UniqueIds(cart)
    ensures UniqueIds(RemoveFromCart(cart, id))
  {
    if cart != [] {
      RemoveKeepsUnique(cart[1..], id);
      var rest := Filter(cart[1..], NotId(id));
      assert Filter(cart, NotId(id)) == (if NotId(id)(cart[0]) then [cart[0]] else []) + rest;
      forall j | 0 <= j < |rest| ensures Id(rest[j]) != Id(cart[0]) {
        var m :| 0 <= m < |cart[1..]| && cart[1..][m] == rest[j];
        assert cart[1..][m] == cart[m + 1];
      }
    }
  }

  lemma UpdateKeepsUnique(cart: seq<CartItem>, id: BookId, q: int)
    requires UniqueIds(cart)
    ensures UniqueIds(UpdateQuantity(cart, id, q))
  {
    if q <= 0 {
      RemoveKeepsUnique(cart, id);
    }
  }

  /** The operations the cart offers. */
  datatype CartOp =
    | Add(book: Book, quantity: Option<int>)
    | Remove(id: BookId)
    | Update(id: BookId, q: int)
    | Clear

  function Apply(cart: seq<CartItem>, op: CartOp): seq<CartItem> {
    match op
    case Add(book, quantity) => AddToCart(cart, book, quantity)
    case Remove(id) => RemoveFromCart(cart, id)
    case Update(id, q) => UpdateQuantity(cart, id, q)
    case Clear => ClearCart(cart)
  }

  function ApplyAll(cart: seq<CartItem>, ops: seq<CartOp>): seq<CartItem>
    decreases |ops|
  {
    if ops == [] then cart else ApplyAll(Apply(cart, ops[0]), ops[1..])
  }

  /** Starting from the empty cart, no sequence of operations ever produces
      two lines for the same book. */
  lemma {:induction false} NeverDuplicates(cart: seq<CartItem>, ops: seq<CartOp>)
    requires UniqueIds(cart)
    ensures UniqueIds(ApplyAll(cart, ops))
    decreases |ops|
  {
    if ops != [] {
      match ops[0] {
        case Add(book, quantity) => AddKeepsUnique(cart, book, quantity);
        case Remove(id) => RemoveKeepsUnique(cart, id);
        case Update(id, q) => UpdateKeepsUnique(cart, id, q);
        case Clear =>
      }
      NeverDuplicates(Apply(cart, ops[0]), ops[1..]);
    }
  }

  lemma FromEmptyNeverDuplicates(ops: seq<CartOp>)
    ensures UniqueIds(ApplyAll([], ops))
  {
    NeverDuplicates([], ops);
  }

  // ---------------------------------------------------------------------------
  // placeOrder

  /** `cart.map(item => ({ bookId: item.id, quantity: item.quantity }))`. */
  function OrderRequest(cart: seq<CartItem>): (r: seq<Orders.Line>)
    ensures |r| == |cart|
    ensures forall i :: 0 <= i < |cart| ==> r[i] == Orders.Line(Some(Id(cart[i])), Some(cart[i].quantity))
  {
    seq(|cart|, i requires 0 <= i < |cart| => Orders.Line(Some(Id(cart[i])), Some(cart[i].quantity)))
  }

  /** The cart after `placeOrder`: cleared once the request succeeded, as it
      was when the request failed. */
  function CartAfterOrder(cart: seq<CartItem>, succeeded: bool): (r: seq<CartItem>)
    ensures succeeded ==> r == []
    ensures !succeeded ==> r == cart
  {
    if succeeded then ClearCart(cart) else cart
  }

  lemma {:induction false} QtyForUnique(cart: seq<CartItem>, i: nat)
    requires UniqueIds(cart) && i < |cart|
    ensures Orders.QtyFor(OrderRequest(cart), Id(cart[i])) == cart[i].quantity
  {
    var lines := OrderRequest(cart);
    assert lines[1..] == OrderRequest(cart[1..]);
    if i == 0 {
      Orders.QtyForUnnamed(lines[1..], Id(cart[0]));
    } else {
      QtyForUnique(cart[1..], i - 1);
    }
  }

  /** A cart the server can serve in full (no duplicate lines, positive
      quantities, stored books with enough stock, prices as listed) is
      accepted by POST /orders, and the amount charged is the cart's total
      price. */
  lemma CartCheckoutTotal(books: map<BookId, Book>, firstId: nat, buyer: UserId, cart: seq<CartItem>)
    requires CatalogueOk(books)
    requires cart != [] && UniqueIds(cart)
    requires forall i :: 0 <= i < |cart| ==>
      && Id(cart[i]) != "" && Id(cart[i]) in books
      && 0 < cart[i].quantity <= books[Id(cart[i])].stock
      && cart[i].book.price == books[Id(cart[i])].price
    ensures Orders.Checkout(books, firstId, buyer, Some(OrderRequest(cart))).Success?
    ensures Orders.Checkout(books, firstId, buyer, Some(OrderRequest(cart))).value.placement.totalAmount == TotalPrice(cart)
  {
    var lines := OrderRequest(cart);
    var items := Some(lines);
    forall id | id in books ensures Orders.QtyFor(lines, id) <= books[id].stock {
      match Find(cart, id)
      case Some(k) => QtyForUnique(cart, k);
      case None => Orders.QtyForUnnamed(lines, id);
    }
    Orders.CheckoutSucceedsIff(books, firstId, buyer, items);
    Orders.CheckoutTotals(books, firstId, buyer, items);
    Orders.CheckoutSnapshotsPrices(books, firstId, buyer, items);
    var rs := Orders.Remembered(books, items);
    SumPointwise(rs, Orders.LineTotal, cart, ItemTotal);
  }
}
