/** The book catalogue handlers: GET /books, GET /books/seller/:sellerId,
    GET /books/:id (database path), POST /books, PUT /books/:id, DELETE /books/:id. */
module Books {
  import opened Common
  import opened Seqs
  import opened Model

  /** The failures of the book handlers. */
  datatype BookError =
    | MissingFields        // 400 "Title, price, and stock are required"
    | InvalidPriceOrStock  // 400 "Price must be positive and stock cannot be negative"
    | InvalidPrice         // 400 "Price must be positive"
    | InvalidStock         // 400 "Stock cannot be negative"
    | BookNotFound         // 404
    | NotYourBook          // 403
    | Internal             // 500 (a failing INSERT)

  /** The fields of a create or update request body; an absent field is None. */
  datatype BookInput = BookInput(
    title: Option<string>,
    description: Option<string>,
    price: Option<int>,
    stock: Option<int>,
    imageUrl: Option<string>)

  function CreatedAt(b: Book): int {
    b.createdAt
  }

  // ---------------------------------------------------------------------------
  // Queries

  /** `WHERE stock > 0 ORDER BY created_at DESC`. */
  method ListBooks(db: Database) returns (r: seq<Book>)
    ensures NewestFirst(r, CreatedAt)
    ensures forall b :: b in r <==> b in db.books.Values && b.stock > 0
    ensures forall b :: b in r ==> multiset(r)[b] == 1
  {
    var rows := set b | b in db.books.Values && b.stock > 0;
    r := SortNewestFirst(rows, CreatedAt);
    assert forall b :: b in r <==> b in multiset(r);
  }

  /** `WHERE seller_id = $1 ORDER BY created_at DESC`, whatever the stock. */
  method ListSellerBooks(db: Database, sellerId: UserId) returns (r: seq<Book>)
    ensures NewestFirst(r, CreatedAt)
    ensures forall b :: b in r <==> b in db.books.Values && b.sellerId == sellerId
    ensures forall b :: b in r ==> multiset(r)[b] == 1
  {
    var rows := set b | b in db.books.Values && b.sellerId == sellerId;
    r := SortNewestFirst(rows, CreatedAt);
    assert forall b :: b in r <==> b in multiset(r);
  }

  /** `WHERE id = $1`: found whatever its stock, 404 otherwise. */
  function GetBook(books: map<BookId, Book>, id: BookId): (r: Result<Book, BookError>)
    ensures r.Success? <==> id in books
    ensures r.Success? ==> r.value == books[id]
    ensures r.Failure? ==> r.error == BookNotFound
  {
    if id in books then Success(books[id]) else Failure(BookNotFound)
  }

  /** A sold-out book is missing from the public listing yet still found by id. */
  lemma SoldOutFoundById(books: map<BookId, Book>, id: BookId)
    requires id in books && books[id].stock == 0
    ensures GetBook(books, id) == Success(books[id])
  {
  }

  // ---------------------------------------------------------------------------
  // POST /books

  /** The two validation steps of create: presence (`!title || !price ||
      stock === undefined`, so a price of 0 counts as missing), then range. */
  function CheckNewBook(input: BookInput): (r: Option<BookError>)
    ensures r == Some(MissingFields) <==>
      !Present(input.title) || input.price.None? || input.price == Some(0) || input.stock.None?
    ensures r == Some(InvalidPriceOrStock) <==>
      && Present(input.title) && input.price.Some? && input.price != Some(0) && input.stock.Some?
      && (input.price.value <= 0 || input.stock.value < 0)
    ensures r.None? <==>
      Present(input.title) && input.price.Some? && input.price.value > 0 && input.stock.Some? && input.stock.value >= 0
  {
    if !Present(input.title) || input.price.None? || input.price.value == 0 || input.stock.None? then Some(MissingFields)
    else if input.price.value <= 0 || input.stock.value < 0 then Some(InvalidPriceOrStock)
    else None
  }

  /** The inserted row: the caller is stamped as seller. */
  function NewBook(input: BookInput, id: BookId, caller: User, now: int): (b: Book)
    requires CheckNewBook(input).None?
    ensures b.sellerId == caller.id && b.sellerName == caller.name
    ensures b.price > 0 && b.stock >= 0
  {
    Book(id, input.title.value, input.description, input.price.value, input.stock.value,
      input.imageUrl, caller.id, caller.name, now)
  }

  /** A created book belongs to its creator, keeps the given fields and
      satisfies the catalogue's price and stock rules. */
  lemma NewBookOwnedByCaller(input: BookInput, id: BookId, caller: User, now: int)
    requires CheckNewBook(input).None?
    ensures var b := NewBook(input, id, caller, now);
      && b.sellerId == caller.id && b.sellerName == caller.name
      && b.id == id && b.createdAt == now
      && Some(b.title) == input.title && Some(b.price) == input.price && Some(b.stock) == input.stock
      && b.description == input.description && b.imageUrl == input.imageUrl
      && b.price > 0 && b.stock >= 0
  {
  }

  /** `newId` stands for the database's `gen_random_uuid()` and `now` for
      `CURRENT_TIMESTAMP`; a colliding id violates the primary key and ends in 500. */
  method CreateBook(db: Database, caller: User, input: BookInput, newId: BookId, now: int) returns (r: Result<Book, BookError>)
    requires db.Valid()
    modifies db
    ensures db.Valid()
    ensures db.orders == old(db.orders) && db.wishlist == old(db.wishlist) && db.shares == old(db.shares)
    ensures CheckNewBook(input).Some? ==> r == Failure(CheckNewBook(input).value) && db.books == old(db.books)
    ensures CheckNewBook(input).None? && newId in old(db.books) ==> r == Failure(Internal) && db.books == old(db.books)
    ensures CheckNewBook(input).None? && newId !in old(db.books) ==>
      && r == Success(NewBook(input, newId, caller, now))
      && db.books == old(db.books)[newId := r.value]
  {
    var check := CheckNewBook(input);
    if check.Some? {
      return Failure(check.value);
    }
    if newId in db.books {
      return Failure(Internal);
    }
    var book := NewBook(input, newId, caller, now);
    db.books := db.books[newId := book];
    r := Success(book);
  }

  // ---------------------------------------------------------------------------
  // PUT /books/:id and DELETE /books/:id

  /** The existence and ownership guards shared by update and delete. */
  function CheckOwned(books: map<BookId, Book>, caller: User, id: BookId): (r: Option<BookError>)
    ensures r.None? <==> id in books && books[id].sellerId == caller.id
    ensures id !in books ==> r == Some(BookNotFound)
    ensures id in books && books[id].sellerId != caller.id ==> r == Some(NotYourBook)
  {
    if id !in books then Some(BookNotFound)
    else if books[id].sellerId != caller.id then Some(NotYourBook)
    else None
  }

  /** Update's guard chain: existence and ownership come before the checks of
      a supplied price (must be positive) and a supplied stock (non-negative). */
  function CheckUpdate(books: map<BookId, Book>, caller: User, id: BookId, input: BookInput): (r: Option<BookError>)
    ensures CheckOwned(books, caller, id).Some? ==> r == CheckOwned(books, caller, id)
    ensures CheckOwned(books, caller, id).None? && input.price.Some? && input.price.value <= 0 ==> r == Some(InvalidPrice)
    ensures (&& CheckOwned(books, caller, id).None? && (input.price.None? || input.price.value > 0)
             && input.stock.Some? && input.stock.value < 0) ==> r == Some(InvalidStock)
    ensures r.None? <==>
      (&& id in books && books[id].sellerId == caller.id
       && (input.price.None? || input.price.value > 0)
       && (input.stock.None? || input.stock.value >= 0))
  {
    var owned := CheckOwned(books, caller, id);
    if owned.Some? then owned
    else if input.price.Some? && input.price.value <= 0 then Some(InvalidPrice)
    else if input.stock.Some? && input.stock.value < 0 then Some(InvalidStock)
    else None
  }

  /** `SET col = COALESCE($n, col)` for the five editable columns. */
  function ApplyUpdate(b: Book, input: BookInput): (r: Book)
    ensures r.id == b.id && r.sellerId == b.sellerId && r.sellerName == b.sellerName && r.createdAt == b.createdAt
    ensures r.title == (if input.title.Some? then input.title.value else b.title)
    ensures r.description == (if input.description.Some? then input.description else b.description)
    ensures r.price == (if input.price.Some? then input.price.value else b.price)
    ensures r.stock == (if input.stock.Some? then input.stock.value else b.stock)
    ensures r.imageUrl == (if input.imageUrl.Some? then input.imageUrl else b.imageUrl)
  {
    b.(title := input.title.GetOr(b.title),
       description := if input.description.Some? then input.description else b.description,
       price := input.price.GetOr(b.price),
       stock := input.stock.GetOr(b.stock),
       imageUrl := if input.imageUrl.Some? then input.imageUrl else b.imageUrl)
  }

  /** An update that supplies no field leaves the book as it was. */
  lemma EmptyUpdateChangesNothing(b: Book)
    ensures ApplyUpdate(b, BookInput(None, None, None, None, None)) == b
  {
  }

  /** Sending the same update twice has the effect of sending it once. */
  lemma UpdateIdempotent(b: Book, input: BookInput)
    ensures ApplyUpdate(ApplyUpdate(b, input), input) == ApplyUpdate(b, input)
  {
  }

  /** An accepted update keeps the catalogue's price and stock rules. */
  lemma UpdateKeepsCatalogue(books: map<BookId, Book>, caller: User, id: BookId, input: BookInput)
    requires CatalogueOk(books) && CheckUpdate(books, caller, id, input).None?
    ensures CatalogueOk(books[id := ApplyUpdate(books[id], input)])
  {
  }

  method UpdateBook(db: Database, caller: User, id: BookId, input: BookInput) returns (r: Result<Book, BookError>)
    requires db.Valid()
    modifies db
    ensures db.Valid()
    ensures db.orders == old(db.orders) && db.wishlist == old(db.wishlist) && db.shares == old(db.shares)
    ensures CheckUpdate(old(db.books), caller, id, input).Some? ==>
      r == Failure(CheckUpdate(old(db.books), caller, id, input).value) && db.books == old(db.books)
    ensures CheckUpdate(old(db.books), caller, id, input).None? ==>
      && db.books == old(db.books)[id := ApplyUpdate(old(db.books)[id], input)]
      && r == Success(db.books[id])
  {
    var check := CheckUpdate(db.books, caller, id, input);
    if check.Some? {
      return Failure(check.value);
    }
    db.books := db.books[id := ApplyUpdate(db.books[id], input)];
    r := Success(db.books[id]);
  }

  /** The order items that do not name book `id`. */
  function NotBook(id: BookId): OrderLine -> bool {
    (l: OrderLine) => l.bookId != id
  }

  /** ON DELETE CASCADE of order_items.book_id: every order loses its items
      naming the deleted book; the order rows themselves stay. */
  function DropItems(orders: seq<Order>, id: BookId): (r: seq<Order>)
    ensures |r| == |orders|
    ensures forall k :: 0 <= k < |orders| ==> r[k] == orders[k].(items := Filter(orders[k].items, NotBook(id)))
  {
    seq(|orders|, k requires 0 <= k < |orders| => orders[k].(items := Filter(orders[k].items, NotBook(id))))
  }

  /** After the cascade no order item names the deleted book, and the items
      that named another book are all still there. */
  lemma DropItemsExactly(orders: seq<Order>, id: BookId)
    ensures forall k, j :: 0 <= k < |orders| && 0 <= j < |DropItems(orders, id)[k].items| ==>
      DropItems(orders, id)[k].items[j].bookId != id
    ensures forall k, j :: 0 <= k < |orders| && 0 <= j < |orders[k].items| && orders[k].items[j].bookId != id ==>
      orders[k].items[j] in DropItems(orders, id)[k].items
    ensures forall k, j :: 0 <= k < |orders| && 0 <= j < |DropItems(orders, id)[k].items| ==>
      DropItems(orders, id)[k].items[j] in orders[k].items
  {
    forall k | 0 <= k < |orders| {
      FilterMembers(orders[k].items, NotBook(id));
    }
    forall k, j | 0 <= k < |orders| && 0 <= j < |DropItems(orders, id)[k].items|
      ensures DropItems(orders, id)[k].items[j].bookId != id
    {
      assert NotBook(id)(DropItems(orders, id)[k].items[j]);
    }
    forall k, j | 0 <= k < |orders| && 0 <= j < |orders[k].items| && orders[k].items[j].bookId != id
      ensures orders[k].items[j] in DropItems(orders, id)[k].items
    {
      assert NotBook(id)(orders[k].items[j]);
    }
  }

  /** ON DELETE CASCADE of wishlist.book_id. */
  function DropWishes(wishlist: map<WishKey, WishEntry>, id: BookId): (r: map<WishKey, WishEntry>)
    ensures forall k :: k in r <==> k in wishlist && k.book != id
    ensures forall k :: k in r ==> r[k] == wishlist[k]
  {
    map k | k in wishlist && k.book != id :: wishlist[k]
  }

  method DeleteBook(db: Database, caller: User, id: BookId) returns (r: Option<BookError>)
    requires db.Valid()
    modifies db
    ensures db.Valid()
    ensures db.shares == old(db.shares)
    ensures r == CheckOwned(old(db.books), caller, id)
    ensures r.Some? ==> db.books == old(db.books) && db.orders == old(db.orders) && db.wishlist == old(db.wishlist)
    ensures r.None? ==>
      && db.books == old(db.books) - {id}
      && db.orders == DropItems(old(db.orders), id)
      && db.wishlist == DropWishes(old(db.wishlist), id)
  {
    r := CheckOwned(db.books, caller, id);
    if r.Some? {
      return;
    }
    DropItemsExactly(db.orders, id);
    db.books := db.books - {id};
    db.orders := DropItems(db.orders, id);
    db.wishlist := DropWishes(db.wishlist, id);
  }

  /** After a delete the book is no longer found, every other book is as it was. */
  lemma DeletedBookGone(books: map<BookId, Book>, id: BookId, other: BookId)
    requires other != id
    ensures GetBook(books - {id}, id) == Failure(BookNotFound)
    ensures GetBook(books - {id}, other) == GetBook(books, other)
  {
  }
}
