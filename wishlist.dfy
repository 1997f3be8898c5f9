/** The wishlist handlers: add, remove, check, the price-drop flag, and the
    shareable lists (create, fetch by code, list, delete). */
module Wishlist {
  import opened Common
  import opened Seqs
  import opened Model

  datatype WishError =
    | BookNotFound        // 404 "Book not found"
    | AlreadyInWishlist   // 400 "Book already in wishlist"
    | NotInWishlist       // 404 "Book not found in wishlist"
    | ShareNotFound       // 404 "Shared wishlist not found or expired" / "Wishlist share not found"
    | SharePrivate        // 403 "This wishlist is private"
    | Internal            // 500 (a failing INSERT)

  const SecondsPerDay := 86400
  const DefaultShareDays := 30

  // ---------------------------------------------------------------------------
  // The caller's own entries

  /** The guard chain of POST /wishlist: the book must exist (404), then the
      (caller, book) pair must be new (400). On success: the price to snapshot. */
  function CheckAdd(books: map<BookId, Book>, wishlist: map<WishKey, WishEntry>, caller: UserId, bookId: Option<BookId>): (r: Result<int, WishError>)
    ensures bookId.None? || bookId.value !in books ==> r == Failure(BookNotFound)
    ensures bookId.Some? && bookId.value in books && WishKey(caller, bookId.value) in wishlist ==> r == Failure(AlreadyInWishlist)
    ensures r.Success? <==> bookId.Some? && bookId.value in books && WishKey(caller, bookId.value) !in wishlist
    ensures r.Success? ==> r.value == books[bookId.value].price
  {
    if bookId.None? || bookId.value !in books then Failure(BookNotFound)
    else if WishKey(caller, bookId.value) in wishlist then Failure(AlreadyInWishlist)
    else Success(books[bookId.value].price)
  }

  /** `notify` is the body's `notifyOnPriceDrop` (default false); `now` is the
      database's CURRENT_TIMESTAMP. */
  method AddToWishlist(db: Database, caller: UserId, bookId: Option<BookId>, notify: Option<bool>, now: int)
    returns (r: Result<WishEntry, WishError>)
    requires db.Valid()
    modifies db
    ensures db.Valid()
    ensures db.books == old(db.books) && db.orders == old(db.orders) && db.shares == old(db.shares)
    ensures match CheckAdd(old(db.books), old(db.wishlist), caller, bookId)
      case Failure(e) => r == Failure(e) && db.wishlist == old(db.wishlist)
      case Success(price) =>
        && r == Success(WishEntry(now, price, notify.GetOr(false)))
        && db.wishlist == old(db.wishlist)[WishKey(caller, bookId.value) := r.value]
  {
    var check := CheckAdd(db.books, db.wishlist, caller, bookId);
    if check.Failure? {
      return Failure(check.error);
    }
    var entry := WishEntry(now, check.value, notify.GetOr(false));
    db.wishlist := db.wishlist[WishKey(caller, bookId.value) := entry];
    r := Success(entry);
  }

  /** An added entry snapshots the book's current price and, unless asked
      otherwise, does not ask for price-drop notifications. */
  lemma AddSnapshotsPrice(books: map<BookId, Book>, wishlist: map<WishKey, WishEntry>, caller: UserId, id: BookId)
    requires id in books && WishKey(caller, id) !in wishlist
    ensures CheckAdd(books, wishlist, caller, Some(id)) == Success(books[id].price)
  {
  }

  /** At most one entry per (user, book): adding a book a second time is
      refused, and after removing it, it can be added again. */
  lemma AddTwiceRefused(books: map<BookId, Book>, wishlist: map<WishKey, WishEntry>, caller: UserId, id: BookId, e: WishEntry)
    requires id in books
    ensures CheckAdd(books, wishlist[WishKey(caller, id) := e], caller, Some(id)) == Failure(AlreadyInWishlist)
    ensures CheckAdd(books, wishlist - {WishKey(caller, id)}, caller, Some(id)).Success?
  {
  }

  /** GET /wishlist/check/:bookId. */
  function InWishlist(wishlist: map<WishKey, WishEntry>, caller: UserId, bookId: BookId): (r: bool)
    ensures r <==> exists k :: k in wishlist && k.user == caller && k.book == bookId
  {
    var key := WishKey(caller, bookId);
    assert key in wishlist ==> key.user == caller && key.book == bookId;
    key in wishlist
  }

  /** `DELETE ... WHERE user_id = $1 AND book_id = $2`: 404 when nothing matched. */
  method RemoveFromWishlist(db: Database, caller: UserId, bookId: BookId) returns (r: Option<WishError>)
    requires db.Valid()
    modifies db
    ensures db.Valid()
    ensures db.books == old(db.books) && db.orders == old(db.orders) && db.shares == old(db.shares)
    ensures r.None? <==> InWishlist(old(db.wishlist), caller, bookId)
    ensures r.Some? ==> r == Some(NotInWishlist) && db.wishlist == old(db.wishlist)
    ensures db.wishlist == old(db.wishlist) - {WishKey(caller, bookId)}
  {
    var key := WishKey(caller, bookId);
    if key !in db.wishlist {
      return Some(NotInWishlist);
    }
    db.wishlist := db.wishlist - {key};
    r := None;
  }

  /** Removing an entry affects no other user's entry and no other book's. */
  lemma RemoveOnlyThatEntry(wishlist: map<WishKey, WishEntry>, caller: UserId, bookId: BookId, user: UserId, book: BookId)
    requires user != caller || book != bookId
    ensures InWishlist(wishlist - {WishKey(caller, bookId)}, user, book) == InWishlist(wishlist, user, book)
    ensures !InWishlist(wishlist - {WishKey(caller, bookId)}, caller, bookId)
  {
    var w := wishlist - {WishKey(caller, bookId)};
    assert WishKey(user, book) in w <==> WishKey(user, book) in wishlist;
  }

  /** `SET notify_on_price_drop = $1`: only that flag of that entry changes. */
  method SetPriceDropNotify(db: Database, caller: UserId, bookId: BookId, notify: bool) returns (r: Result<WishEntry, WishError>)
    requires db.Valid()
    modifies db
    ensures db.Valid()
    ensures db.books == old(db.books) && db.orders == old(db.orders) && db.shares == old(db.shares)
    ensures !InWishlist(old(db.wishlist), caller, bookId) ==> r == Failure(NotInWishlist) && db.wishlist == old(db.wishlist)
    ensures InWishlist(old(db.wishlist), caller, bookId) ==>
      var key := WishKey(caller, bookId);
      && db.wishlist == old(db.wishlist)[key := old(db.wishlist)[key].(notify := notify)]
      && r == Success(db.wishlist[key])
  {
    var key := WishKey(caller, bookId);
    if key !in db.wishlist {
      return Failure(NotInWishlist);
    }
    db.wishlist := db.wishlist[key := db.wishlist[key].(notify := notify)];
    r := Success(db.wishlist[key]);
  }

  // ---------------------------------------------------------------------------
  // Shares

  /** `expiresAt.setDate(expiresAt.getDate() + expiresInDays)`, in seconds. */
  function ExpiryAfter(now: int, days: int): (r: int)
    ensures days > 0 ==> r > now
    ensures days <= 0 ==> r <= now
  {
    now + days * SecondsPerDay
  }

  /** The row inserted by POST /wishlist/share; public unless said otherwise,
      valid for 30 days unless said otherwise. */
  function NewShare(caller: UserId, code: ShareCode, title: Option<string>, description: Option<string>,
                    isPublic: Option<bool>, expiresInDays: Option<int>, now: int): (s: Share)
    ensures s.owner == caller && s.code == code && s.title == title && s.description == description
    ensures s.createdAt == now
    ensures s.isPublic == (isPublic != Some(false))
    ensures s.expiresAt == ExpiryAfter(now, if expiresInDays.Some? then expiresInDays.value else DefaultShareDays)
  {
    Share(caller, code, title, description, isPublic.GetOr(true), now, ExpiryAfter(now, expiresInDays.GetOr(DefaultShareDays)))
  }

  /** `code` stands for `crypto.randomBytes(16).toString('hex')`; a code that
      is already taken violates the UNIQUE constraint and ends in 500. */
  method CreateShare(db: Database, caller: UserId, code: ShareCode, title: Option<string>, description: Option<string>,
                     isPublic: Option<bool>, expiresInDays: Option<int>, now: int) returns (r: Result<Share, WishError>)
    requires db.Valid()
    modifies db
    ensures db.Valid()
    ensures db.books == old(db.books) && db.orders == old(db.orders) && db.wishlist == old(db.wishlist)
    ensures code in old(db.shares) ==> r == Failure(Internal) && db.shares == old(db.shares)
    ensures code !in old(db.shares) ==>
      && r == Success(NewShare(caller, code, title, description, isPublic, expiresInDays, now))
      && db.shares == old(db.shares)[code := r.value]
  {
    if code in db.shares {
      return Failure(Internal);
    }
    var share := NewShare(caller, code, title, description, isPublic, expiresInDays, now);
    db.shares := db.shares[code := share];
    r := Success(share);
  }

  /** `expires_at > NOW()`. */
  predicate Live(s: Share, now: int) {
    s.expiresAt > now
  }

  /** The guard chain of GET /wishlist/shared/:shareCode: an unknown or expired
      code is 404, a private share 403. */
  function CheckShared(shares: map<ShareCode, Share>, code: ShareCode, now: int): (r: Result<Share, WishError>)
    ensures code !in shares || !Live(shares[code], now) ==> r == Failure(ShareNotFound)
    ensures code in shares && Live(shares[code], now) && !shares[code].isPublic ==> r == Failure(SharePrivate)
    ensures r.Success? <==> code in shares && Live(shares[code], now) && shares[code].isPublic
    ensures r.Success? ==> r.value == shares[code]
  {
    if code !in shares || !Live(shares[code], now) then Failure(ShareNotFound)
    else if !shares[code].isPublic then Failure(SharePrivate)
    else Success(shares[code])
  }

  /** A freshly created public share can be fetched until its expiry instant
      and not from then on. */
  lemma ShareLifetime(shares: map<ShareCode, Share>, caller: UserId, code: ShareCode, title: Option<string>,
                      description: Option<string>, days: int, now: int, t: int)
    requires days > 0 && t >= now
    ensures var s := NewShare(caller, code, title, description, None, Some(days), now);
      CheckShared(shares[code := s], code, t).Success? <==> t < now + days * SecondsPerDay
  {
  }

  /** One item of a fetched wishlist: the entry joined with its book. */
  datatype WishedBook = WishedBook(bookId: BookId, addedAt: int, book: Book)

  function AddedAt(w: WishedBook): int {
    w.addedAt
  }

  /** `FROM wishlist w JOIN books b ON w.book_id = b.id WHERE w.user_id = $1`. */
  function OwnerRows(wishlist: map<WishKey, WishEntry>, books: map<BookId, Book>, owner: UserId): (r: set<WishedBook>)
    ensures forall x :: x in r ==>
      WishKey(owner, x.bookId) in wishlist && x.bookId in books
      && x.addedAt == wishlist[WishKey(owner, x.bookId)].addedAt && x.book == books[x.bookId]
    ensures forall k :: k in wishlist && k.user == owner && k.book in books ==>
      WishedBook(k.book, wishlist[k].addedAt, books[k.book]) in r
  {
    set k | k in wishlist && k.user == owner && k.book in books :: WishedBook(k.book, wishlist[k].addedAt, books[k.book])
  }

  /** What GET /wishlist/shared/:shareCode answers with. */
  datatype SharedList = SharedList(share: Share, items: seq<WishedBook>)

  method GetShared(db: Database, code: ShareCode, now: int) returns (r: Result<SharedList, WishError>)
    ensures CheckShared(db.shares, code, now).Failure? ==> r == Failure(CheckShared(db.shares, code, now).error)
    ensures CheckShared(db.shares, code, now).Success? ==>
      && r.Success? && r.value.share == db.shares[code]
      && NewestFirst(r.value.items, AddedAt)
      && (forall x :: x in r.value.items <==> x in OwnerRows(db.wishlist, db.books, db.shares[code].owner))
      && (forall x :: x in r.value.items ==> multiset(r.value.items)[x] == 1)
  {
    var check := CheckShared(db.shares, code, now);
    if check.Failure? {
      return Failure(check.error);
    }
    var rows := OwnerRows(db.wishlist, db.books, check.value.owner);
    var items := SortNewestFirst(rows, AddedAt);
    assert forall x :: x in items <==> x in multiset(items);
    r := Success(SharedList(check.value, items));
  }

  /** GET /wishlist/shares: the caller's live shares, newest first. */
  method ListShares(db: Database, caller: UserId, now: int) returns (r: seq<Share>)
    ensures NewestFirst(r, ShareCreatedAt)
    ensures forall s :: s in r <==> s in db.shares.Values && s.owner == caller && Live(s, now)
    ensures forall s :: s in r ==> multiset(r)[s] == 1
  {
    var rows := set s | s in db.shares.Values && s.owner == caller && Live(s, now);
    r := SortNewestFirst(rows, ShareCreatedAt);
    assert forall s :: s in r <==> s in multiset(r);
  }

  function ShareCreatedAt(s: Share): int {
    s.createdAt
  }

  /** `DELETE ... WHERE user_id = $1 AND share_code = $2`: only the caller's
      own share goes; anyone else's code, or an unknown one, is 404. */
  method DeleteShare(db: Database, caller: UserId, code: ShareCode) returns (r: Option<WishError>)
    requires db.Valid()
    modifies db
    ensures db.Valid()
    ensures db.books == old(db.books) && db.orders == old(db.orders) && db.wishlist == old(db.wishlist)
    ensures r.None? <==> code in old(db.shares) && old(db.shares)[code].owner == caller
    ensures r.Some? ==> r == Some(ShareNotFound) && db.shares == old(db.shares)
    ensures r.None? ==> db.shares == old(db.shares) - {code}
  {
    if code !in db.shares || db.shares[code].owner != caller {
      return Some(ShareNotFound);
    }
    db.shares := db.shares - {code};
    r := None;
  }
}
