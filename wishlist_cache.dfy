/** The client's copy of the caller's wishlist and shares. Each update is
    applied to the local lists only after the server call it mirrors has
    succeeded; the server's answers are parameters. */
module WishlistCache {
  import opened Common
  import opened Seqs
  import opened Model

  /** A wishlist item as the client keeps it. */
  datatype WishItem = WishItem(bookId: BookId, book: Book, addedAt: int, priceWhenAdded: int, notify: bool)

  /** `wishlistItems` and `wishlistShares`. */
  datatype Cache = Cache(items: seq<WishItem>, shares: seq<Share>)

  /** `wishlistItems.some(item => item.bookId === bookId)`. */
  function IsInWishlist(items: seq<WishItem>, bookId: BookId): (r: bool)
    ensures r <==> exists i :: 0 <= i < |items| && items[i].bookId == bookId
  {
    if items == [] then false
    else
      assert forall i :: 0 < i < |items| ==> items[i] == items[1..][i - 1];
      items[0].bookId == bookId || IsInWishlist(items[1..], bookId)
  }

  /** `getTotalItems`: zero exactly when no book is wished for. */
  function TotalItems(c: Cache): (r: nat)
    ensures r == 0 <==> forall b :: !IsInWishlist(c.items, b)
  {
    assert c.items != [] ==> IsInWishlist(c.items, c.items[0].bookId);
    |c.items|
  }

  function NotFor(bookId: BookId): WishItem -> bool {
    (item: WishItem) => item.bookId != bookId
  }

  /** The local part of `removeFromWishlist`: every item for the book goes,
      the rest keep their order. */
  function DropBook(items: seq<WishItem>, bookId: BookId): (r: seq<WishItem>)
    ensures |r| <= |items|
    ensures forall i :: 0 <= i < |r| ==> r[i].bookId != bookId && r[i] in items
    ensures forall i :: 0 <= i < |items| && items[i].bookId != bookId ==> items[i] in r
  {
    var r := Filter(items, NotFor(bookId));
    FilterMembers(items, NotFor(bookId));
    assert forall i :: 0 <= i < |r| ==> NotFor(bookId)(r[i]);
    r
  }

  /** Dropping a book distributes over concatenation: the survivors keep
      their relative order. */
  lemma DropBookConcat(a: seq<WishItem>, b: seq<WishItem>, bookId: BookId)
    ensures DropBook(a + b, bookId) == DropBook(a, bookId) + DropBook(b, bookId)
  {
    FilterConcat(a, b, NotFor(bookId));
  }

  /** `removeFromWishlist(bookId)`. When the DELETE succeeds the book's items
      are dropped; when it fails the list is reloaded (`reload`, with None for
      a failing reload, which empties it) and the error is passed on. */
  function RemoveFromWishlist(c: Cache, bookId: BookId, deleted: bool, reload: Option<seq<WishItem>>): (r: Cache)
    ensures r.shares == c.shares
    ensures deleted ==> r.items == DropBook(c.items, bookId)
    ensures !deleted ==> r.items == reload.GetOr([])
  {
    if deleted then c.(items := DropBook(c.items, bookId))
    else c.(items := reload.GetOr([]))
  }

  /** After a successful remove the book is no longer in the local list, and
      every other book's membership is as before. */
  lemma RemoveThenAbsent(c: Cache, bookId: BookId, other: BookId, reload: Option<seq<WishItem>>)
    requires other != bookId
    ensures !IsInWishlist(RemoveFromWishlist(c, bookId, true, reload).items, bookId)
    ensures IsInWishlist(RemoveFromWishlist(c, bookId, true, reload).items, other) == IsInWishlist(c.items, other)
  {
    var r := RemoveFromWishlist(c, bookId, true, reload).items;
    if IsInWishlist(c.items, other) {
      var i :| 0 <= i < |c.items| && c.items[i].bookId == other;
      var j :| 0 <= j < |r| && r[j] == c.items[i];
    }
  }

  /** The `map` of `togglePriceNotification`. */
  function SetNotify(items: seq<WishItem>, bookId: BookId, notify: bool): (r: seq<WishItem>)
    ensures |r| == |items|
    ensures forall i :: 0 <= i < |items| ==>
      r[i] == (if items[i].bookId == bookId then items[i].(notify := notify) else items[i])
  {
    if items == [] then []
    else
      var head := if items[0].bookId == bookId then items[0].(notify := notify) else items[0];
      [head] + SetNotify(items[1..], bookId, notify)
  }

  /** `togglePriceNotification(bookId, notify)`: applied only when the PATCH succeeded. */
  function TogglePriceNotification(c: Cache, bookId: BookId, notify: bool, updated: bool): (r: Cache)
    ensures r.shares == c.shares
    ensures !updated ==> r == c
    ensures updated ==> r.items == SetNotify(c.items, bookId, notify)
  {
    if updated then c.(items := SetNotify(c.items, bookId, notify)) else c
  }

  /** The toggle changes neither which books are wished for nor how many
      items there are, and sets the flag of every item for the book. */
  lemma ToggleKeepsMembership(c: Cache, bookId: BookId, notify: bool, b: BookId)
    ensures var r := TogglePriceNotification(c, bookId, notify, true);
      && TotalItems(r) == TotalItems(c)
      && IsInWishlist(r.items, b) == IsInWishlist(c.items, b)
      && forall i :: 0 <= i < |r.items| && r.items[i].bookId == bookId ==> r.items[i].notify == notify
  {
    var r := TogglePriceNotification(c, bookId, notify, true);
    assert forall i :: 0 <= i < |c.items| ==> r.items[i].bookId == c.items[i].bookId;
  }

  /** `createWishlistShare`: the server's new share goes to the front. */
  function CreateWishlistShare(c: Cache, created: Option<Share>): (r: Cache)
    ensures r.items == c.items
    ensures created.None? ==> r == c
    ensures created.Some? ==> |r.shares| == |c.shares| + 1 && r.shares[0] == created.value && r.shares[1..] == c.shares
  {
    if created.Some? then c.(shares := [created.value] + c.shares) else c
  }

  function NotCode(code: ShareCode): Share -> bool {
    (s: Share) => s.code != code
  }

  /** `deleteWishlistShare(shareCode)`: applied only when the DELETE succeeded. */
  function DeleteWishlistShare(c: Cache, code: ShareCode, deleted: bool): (r: Cache)
    ensures r.items == c.items
    ensures !deleted ==> r == c
    ensures deleted ==> r.shares == Filter(c.shares, NotCode(code))
  {
    if deleted then c.(shares := Filter(c.shares, NotCode(code))) else c
  }

  /** Deleting a share leaves no share with that code and keeps every other
      share; deleting the share just created restores the previous list when
      the code was not there before. */
  lemma DeleteShareExactly(c: Cache, code: ShareCode, s: Share)
    requires s.code == code
    requires forall i :: 0 <= i < |c.shares| ==> c.shares[i].code != code
    ensures DeleteWishlistShare(CreateWishlistShare(c, Some(s)), code, true) == c
  {
    var created := CreateWishlistShare(c, Some(s));
    assert created.shares == [s] + c.shares;
    FilterConcat([s], c.shares, NotCode(code));
    FilterAll(c.shares, NotCode(code));
  }

  /** A deleted code is gone; other shares are kept. */
  lemma DeleteShareDrops(c: Cache, code: ShareCode)
    ensures var r := DeleteWishlistShare(c, code, true);
      && (forall i :: 0 <= i < |r.shares| ==> r.shares[i].code != code)
      && (forall i :: 0 <= i < |c.shares| && c.shares[i].code != code ==> c.shares[i] in r.shares)
  {
    var r := DeleteWishlistShare(c, code, true);
    FilterMembers(c.shares, NotCode(code));
    assert forall i :: 0 <= i < |r.shares| ==> NotCode(code)(r.shares[i]);
    assert forall i :: 0 <= i < |c.shares| && c.shares[i].code != code ==> NotCode(code)(c.shares[i]);
  }

  /** The effect on `[isAuthenticated, user]`: a buyer's lists are loaded
      (None for a failing load, which empties that list); anyone else's are
      emptied. */
  function OnAuthChange(c: Cache, authenticated: bool, role: Option<Role>,
                        loadedItems: Option<seq<WishItem>>, loadedShares: Option<seq<Share>>): (r: Cache)
    ensures !(authenticated && role == Some(Buyer)) ==> r.items == [] && r.shares == []
    ensures authenticated && role == Some(Buyer) ==> r.items == loadedItems.GetOr([]) && r.shares == loadedShares.GetOr([])
  {
    if authenticated && role == Some(Buyer) then Cache(loadedItems.GetOr([]), loadedShares.GetOr([]))
    else Cache([], [])
  }

  /** Signing out, or signing in as a seller, leaves nothing wished for. */
  lemma SignedOutEmpty(c: Cache, authenticated: bool, role: Option<Role>, b: BookId,
                       loadedItems: Option<seq<WishItem>>, loadedShares: Option<seq<Share>>)
    requires !authenticated || role != Some(Buyer)
    ensures var r := OnAuthChange(c, authenticated, role, loadedItems, loadedShares);
      TotalItems(r) == 0 && !IsInWishlist(r.items, b)
  {
  }
}
