/** The in-memory store the client falls back on: two arrays of books and
    orders, mutated in place. */
module MockStore {
  import opened Common
  import opened Seqs
  import opened Model

  /** A stored book; prices in integer cents, times as clock readings. */
  datatype MockBook = MockBook(
    id: string,
    title: string,
    description: string,
    price: int,
    stock: int,
    imageUrl: string,
    sellerId: UserId,
    sellerName: string,
    createdAt: int)

  /** A stored order: one book, one quantity. */
  datatype MockOrder = MockOrder(
    id: string,
    bookId: BookId,
    bookTitle: string,
    bookImage: string,
    buyerId: UserId,
    buyerName: string,
    sellerId: UserId,
    quantity: int,
    price: int,
    totalAmount: int,
    status: Status,
    createdAt: int)

  /** `Partial<Book>`: every field may be missing. */
  datatype BookDraft = BookDraft(
    title: Option<string>,
    description: Option<string>,
    price: Option<int>,
    stock: Option<int>,
    imageUrl: Option<string>,
    sellerId: Option<UserId>,
    sellerName: Option<string>)

  /** `Partial<Order>`; a given status is ignored by `addOrder`. */
  datatype OrderDraft = OrderDraft(
    bookId: Option<BookId>,
    bookTitle: Option<string>,
    bookImage: Option<string>,
    buyerId: Option<UserId>,
    buyerName: Option<string>,
    sellerId: Option<UserId>,
    quantity: Option<int>,
    price: Option<int>,
    totalAmount: Option<int>,
    status: Option<Status>)

  /** `x || fallback` on a string: a missing or empty string gives the fallback. */
  function OrText(s: Option<string>, fallback: string): (r: string)
    ensures s.Some? && s.value != "" ==> r == s.value
    ensures s.None? || s.value == "" ==> r == fallback
  {
    if s.Some? && s.value != "" then s.value else fallback
  }

  /** `x || fallback` on a number: a missing or zero number gives the fallback. */
  function OrNumber(n: Option<int>, fallback: int): (r: int)
    ensures n.Some? && n.value != 0 ==> r == n.value
    ensures n.None? || n.value == 0 ==> r == fallback
  {
    if n.Some? && n.value != 0 then n.value else fallback
  }

  /** The book `addBook` builds; `id` is `Date.now().toString()`. Each default
      is its type's falsy value, so `given || default` keeps every given value
      and fills in "" or 0 for a missing one. */
  function DraftBook(d: BookDraft, id: string, now: int): (b: MockBook)
    ensures b.id == id && b.createdAt == now
    ensures b.title == d.title.GetOr("") && b.description == d.description.GetOr("")
    ensures b.price == d.price.GetOr(0) && b.stock == d.stock.GetOr(0)
    ensures b.imageUrl == d.imageUrl.GetOr("")
    ensures b.sellerId == d.sellerId.GetOr("") && b.sellerName == d.sellerName.GetOr("")
  {
    MockBook(id, OrText(d.title, ""), OrText(d.description, ""), OrNumber(d.price, 0), OrNumber(d.stock, 0),
      OrText(d.imageUrl, ""), OrText(d.sellerId, ""), OrText(d.sellerName, ""), now)
  }

  /** The order `addOrder` builds: always pending; a missing or zero quantity is 1. */
  function DraftOrder(d: OrderDraft, id: string, now: int): (o: MockOrder)
    ensures o.status == Pending
    ensures o.quantity == (if d.quantity.Some? && d.quantity.value != 0 then d.quantity.value else 1)
    ensures o.quantity != 0
  {
    MockOrder(id, OrText(d.bookId, ""), OrText(d.bookTitle, ""), OrText(d.bookImage, ""),
      OrText(d.buyerId, ""), OrText(d.buyerName, ""), OrText(d.sellerId, ""),
      OrNumber(d.quantity, 1), OrNumber(d.price, 0), OrNumber(d.totalAmount, 0), Pending, now)
  }

  /** Missing fields of a book draft default to the empty string and 0. */
  lemma EmptyDraftDefaults(id: string, now: int)
    ensures DraftBook(BookDraft(None, None, None, None, None, None, None), id, now)
      == MockBook(id, "", "", 0, 0, "", "", "", now)
  {
  }

  /** A status given in the draft is never used. */
  lemma DraftStatusIgnored(d: OrderDraft, id: string, now: int, st: Status)
    ensures DraftOrder(d.(status := Some(st)), id, now) == DraftOrder(d.(status := None), id, now)
  {
  }

  function BookBySeller(s: UserId): MockBook -> bool {
    (b: MockBook) => b.sellerId == s
  }

  function OrderBySeller(s: UserId): MockOrder -> bool {
    (o: MockOrder) => o.sellerId == s
  }

  /** `orders.findIndex(order => order.id === orderId)`, None for -1. */
  function FirstIndex(orders: seq<MockOrder>, orderId: string): (r: Option<nat>)
    ensures r.Some? ==> r.value < |orders| && orders[r.value].id == orderId
    ensures r.Some? ==> forall j :: 0 <= j < r.value ==> orders[j].id != orderId
    ensures r.None? ==> forall j :: 0 <= j < |orders| ==> orders[j].id != orderId
  {
    if orders == [] then None
    else if orders[0].id == orderId then Some(0)
    else match FirstIndex(orders[1..], orderId)
      case None => None
      case Some(k) => Some(k + 1)
  }

  const SeedImage := "https://images.pexels.com/photos/1370295/pexels-photo-1370295.jpeg?auto=compress&cs=tinysrgb&w=400"

  /** The three seed books: two by "seller1", one by "seller2". */
  function SeedBooks(now: int): (r: seq<MockBook>)
    ensures |r| == 3 && r[0].id == "1" && r[1].id == "2" && r[2].id == "3"
  {
    [
      MockBook("1", "The Great Gatsby", "A classic American novel about the Jazz Age.", 1599, 10, SeedImage,
        "seller1", "Classic Books Store", now),
      MockBook("2", "To Kill a Mockingbird", "A gripping tale of racial injustice and childhood innocence.", 1299, 5, SeedImage,
        "seller2", "Modern Literature Hub", now),
      MockBook("3", "1984", "George Orwell's dystopian masterpiece.", 1399, 8, SeedImage,
        "seller1", "Classic Books Store", now)
    ]
  }

  /** The one seed order: a pending order for the first seed book. */
  function SeedOrders(now: int): (r: seq<MockOrder>)
    ensures |r| == 1 && r[0].status == Pending && r[0].bookId == "1"
  {
    [MockOrder("1", "1", "The Great Gatsby", SeedImage, "buyer1", "John Doe", "seller1", 1, 1599, 1599, Pending, now)]
  }

  class MockStorage {
    var books: seq<MockBook>
    var orders: seq<MockOrder>

    /** The seed data: three books by two sellers and one pending order. */
    constructor (now: int)
      ensures books == SeedBooks(now) && orders == SeedOrders(now)
      ensures |books| == 3 && |orders| == 1
      ensures books[0].id == "1" && books[1].id == "2" && books[2].id == "3"
      ensures orders[0].status == Pending && orders[0].bookId == "1"
    {
      books := SeedBooks(now);
      orders := SeedOrders(now);
    }

    /** `[...this.books]`: a copy equal to the stored list. */
    method GetAllBooks() returns (r: seq<MockBook>)
      ensures r == books
    {
      r := books[..];
    }

    /** The stored books of one seller, in stored order. */
    method GetBooksBySeller(sellerId: UserId) returns (r: seq<MockBook>)
      ensures r == Filter(books, BookBySeller(sellerId))
    {
      r := [];
      for i := 0 to |books|
        invariant r == Filter(books[..i], BookBySeller(sellerId))
      {
        FilterConcat(books[..i], [books[i]], BookBySeller(sellerId));
        assert books[..i + 1] == books[..i] + [books[i]];
        if books[i].sellerId == sellerId {
          r := r + [books[i]];
        }
      }
      assert books[..|books|] == books;
    }

    /** `unshift`: the new book goes first; the others keep their places after it. */
    method AddBook(d: BookDraft, id: string, now: int) returns (b: MockBook)
      modifies this`books
      ensures b == DraftBook(d, id, now)
      ensures books == [b] + old(books)
    {
      b := DraftBook(d, id, now);
      books := [b] + books;
    }

    /** The stored orders of one seller, in stored order. */
    method GetOrdersBySeller(sellerId: UserId) returns (r: seq<MockOrder>)
      ensures r == Filter(orders, OrderBySeller(sellerId))
    {
      r := [];
      for i := 0 to |orders|
        invariant r == Filter(orders[..i], OrderBySeller(sellerId))
      {
        FilterConcat(orders[..i], [orders[i]], OrderBySeller(sellerId));
        assert orders[..i + 1] == orders[..i] + [orders[i]];
        if orders[i].sellerId == sellerId {
          r := r + [orders[i]];
        }
      }
      assert orders[..|orders|] == orders;
    }

    method AddOrder(d: OrderDraft, id: string, now: int) returns (o: MockOrder)
      modifies this`orders
      ensures o == DraftOrder(d, id, now)
      ensures orders == [o] + old(orders)
    {
      o := DraftOrder(d, id, now);
      orders := [o] + orders;
    }

    /** Replaces the status of the first order with that id and returns the
      updated order; None (`null`) when no order has that id. */
    method UpdateOrderStatus(orderId: string, status: Status) returns (r: Option<MockOrder>)
      modifies this`orders
      ensures FirstIndex(old(orders), orderId).None? ==> r.None? && orders == old(orders)
      ensures FirstIndex(old(orders), orderId).Some? ==>
        var k := FirstIndex(old(orders), orderId).value;
        && orders == old(orders)[k := old(orders)[k].(status := status)]
        && r == Some(orders[k])
    {
      var i := 0;
      while i < |orders| && orders[i].id != orderId
        invariant 0 <= i <= |orders|
        invariant forall j :: 0 <= j < i ==> orders[j].id != orderId
      {
        i := i + 1;
      }
      FirstIndexIs(orders, orderId, i);
      if i == |orders| {
        return None;
      }
      orders := orders[i := orders[i].(status := status)];
      r := Some(orders[i]);
    }
  }

  /** A position with no earlier match is what `FirstIndex` finds. */
  lemma {:induction false} FirstIndexIs(orders: seq<MockOrder>, orderId: string, i: nat)
    requires i <= |orders|
    requires forall j :: 0 <= j < i ==> orders[j].id != orderId
    requires i < |orders| ==> orders[i].id == orderId
    ensures i == |orders| ==> FirstIndex(orders, orderId).None?
    ensures i < |orders| ==> FirstIndex(orders, orderId) == Some(i)
  {
    if orders != [] && i > 0 {
      FirstIndexIs(orders[1..], orderId, i - 1);
    }
  }

  /** A book just added is the first book its seller's listing shows, followed
      by the seller's earlier books. */
  lemma AddedBookListedFirst(books: seq<MockBook>, b: MockBook)
    ensures Filter([b] + books, BookBySeller(b.sellerId)) == [b] + Filter(books, BookBySeller(b.sellerId))
  {
    FilterConcat([b], books, BookBySeller(b.sellerId));
  }

  /** A status update never changes which orders a seller sees, only their status. */
  lemma StatusUpdateKeepsSellerView(orders: seq<MockOrder>, k: nat, st: Status, s: UserId)
    requires k < |orders|
    ensures |Filter(orders[k := orders[k].(status := st)], OrderBySeller(s))| == |Filter(orders, OrderBySeller(s))|
  {
    var o := orders[k := orders[k].(status := st)];
    assert orders == orders[..k] + [orders[k]] + orders[k + 1..];
    assert o == orders[..k] + [o[k]] + orders[k + 1..];
    FilterConcat(orders[..k] + [orders[k]], orders[k + 1..], OrderBySeller(s));
    FilterConcat(orders[..k], [orders[k]], OrderBySeller(s));
    FilterConcat(orders[..k] + [o[k]], orders[k + 1..], OrderBySeller(s));
    FilterConcat(orders[..k], [o[k]], OrderBySeller(s));
  }
}
