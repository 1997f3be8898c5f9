/** The shared data model: the rows of the relational schema (books, orders with
    their items, wishlist entries, wishlist shares) and the database that holds them. */
module Model {
  import opened Common

  datatype Role = Buyer | Seller

  datatype User = User(id: UserId, name: string, email: string, role: Role)

  /** A row of `books`. Prices are integer cents (DECIMAL(10, 2)); times are
      integer seconds. `description` and `imageUrl` are nullable columns. */
  datatype Book = Book(
    id: BookId,
    title: string,
    description: Option<string>,
    price: int,
    stock: int,
    imageUrl: Option<string>,
    sellerId: UserId,
    sellerName: string,
    createdAt: int)

  /** The five values of the `orders.status` CHECK constraint. */
  datatype Status = Pending | Confirmed | Shipped | Delivered | Cancelled

  function StatusName(s: Status): string {
    match s
    case Pending => "pending"
    case Confirmed => "confirmed"
    case Shipped => "shipped"
    case Delivered => "delivered"
    case Cancelled => "cancelled"
  }

  const ValidStatuses: seq<string> := ["pending", "confirmed", "shipped", "delivered", "cancelled"]

  /** `!status || !validStatuses.includes(status)` negated: the status named by
      the request body, if it names one. */
  function ParseStatus(s: Option<string>): (r: Option<Status>)
    ensures r.Some? <==> s.Some? && s.value in ValidStatuses
    ensures r.Some? ==> StatusName(r.value) == s.value
  {
    if s == Some("pending") then Some(Pending)
    else if s == Some("confirmed") then Some(Confirmed)
    else if s == Some("shipped") then Some(Shipped)
    else if s == Some("delivered") then Some(Delivered)
    else if s == Some("cancelled") then Some(Cancelled)
    else None
  }

  /** Parsing inverts naming: every enum value is accepted under its own name. */
  lemma ParseStatusName(st: Status)
    ensures ParseStatus(Some(StatusName(st))) == Some(st)
  {
  }

  /** An item of an order as the order handler remembers it: the book's price is
      copied at the time of the order. */
  datatype OrderLine = OrderLine(
    bookId: BookId,
    title: string,
    quantity: int,
    price: int,
    sellerId: UserId,
    sellerName: string)

  /** A row of `orders` with its `order_items`; its id is its position in Database.orders. */
  datatype Order = Order(
    buyerId: UserId,
    sellerId: UserId,
    totalAmount: int,
    status: Status,
    items: seq<OrderLine>)

  /** `wishlist` is unique on (user_id, book_id): the pair is the key. */
  datatype WishKey = WishKey(user: UserId, book: BookId)

  datatype WishEntry = WishEntry(addedAt: int, priceWhenAdded: int, notify: bool)

  /** A row of `wishlist_shares`; `share_code` is UNIQUE, so the code is the key. */
  datatype Share = Share(
    owner: UserId,
    code: ShareCode,
    title: Option<string>,
    description: Option<string>,
    isPublic: bool,
    createdAt: int,
    expiresAt: int)

  /** Every book is stored under its own id, with a positive price and a
      non-negative stock, as the book handlers validate them. */
  ghost predicate CatalogueOk(books: map<BookId, Book>) {
    forall id :: id in books ==> books[id].id == id && books[id].price > 0 && books[id].stock >= 0
  }

  /** The foreign key order_items.book_id: every item names a stored book. */
  ghost predicate ItemsReferToBooks(orders: seq<Order>, books: map<BookId, Book>) {
    forall i, j :: 0 <= i < |orders| && 0 <= j < |orders[i].items| ==> orders[i].items[j].bookId in books
  }

  /** The tables the backend handlers read and write. */
  class Database {
    var books: map<BookId, Book>
    var orders: seq<Order>
    var wishlist: map<WishKey, WishEntry>
    var shares: map<ShareCode, Share>

    ghost predicate Valid()
      reads this
    {
      && CatalogueOk(books)
      && ItemsReferToBooks(orders, books)
      && (forall k :: k in wishlist ==> k.book in books)
      && (forall c :: c in shares ==> shares[c].code == c)
    }

    constructor ()
      ensures Valid()
      ensures books == map[] && orders == [] && wishlist == map[] && shares == map[]
    {
      books := map[];
      orders := [];
      wishlist := map[];
      shares := map[];
    }
  }
}
