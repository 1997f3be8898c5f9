/** POST /orders (order placement, split per seller) and PATCH /orders/:id/status. */
module Orders {
  import opened Common
  import opened Seqs
  import opened Model

  /** One element of the request body's `items`; an absent property is None. */
  datatype Line = Line(bookId: Option<BookId>, quantity: Option<int>)

  /** Every failure of POST /orders is answered with 400 and one of these messages. */
  datatype PlaceError =
    | ItemsRequired              // "Order items are required"
    | InvalidItem                // "Invalid item data"
    | BookNotFound(id: BookId)   // "Book with ID ... not found"
    | InsufficientStock(title: string)

  /** `!bookId || !quantity || quantity <= 0` fails. */
  predicate ValidLine(l: Line) {
    Present(l.bookId) && l.quantity.Some? && l.quantity.value > 0
  }

  function LineTotal(l: OrderLine): int {
    l.price * l.quantity
  }

  /** The catalogue after the validation loop and the lines it remembered. */
  datatype Reservation = Reservation(books: map<BookId, Book>, lines: seq<OrderLine>)

  /** The validation loop read as a function: lines are taken top to bottom;
      each is validated, its book looked up and its stock checked against the
      stock left by the earlier lines, then the stock is decremented. The first
      failing line decides the error. */
  function Reserve(books: map<BookId, Book>, lines: seq<Line>): (r: Result<Reservation, PlaceError>)
    ensures r.Success? ==> r.value.books.Keys == books.Keys && |r.value.lines| == |lines|
    decreases |lines|
  {
    if lines == [] then Success(Reservation(books, []))
    else
      var l := lines[0];
      if !ValidLine(l) then Failure(InvalidItem)
      else if l.bookId.value !in books then Failure(BookNotFound(l.bookId.value))
      else
        var id, q := l.bookId.value, l.quantity.value;
        var b := books[id];
        if b.stock < q then Failure(InsufficientStock(b.title))
        else
          var line := OrderLine(id, b.title, q, b.price, b.sellerId, b.sellerName);
          Prepend([line], Reserve(books[id := b.(stock := b.stock - q)], lines[1..]))
  }

  /** Puts already remembered lines in front of the lines of a later reservation. */
  function Prepend(done: seq<OrderLine>, r: Result<Reservation, PlaceError>): Result<Reservation, PlaceError> {
    match r
    case Failure(e) => Failure(e)
    case Success(rv) => Success(Reservation(rv.books, done + rv.lines))
  }

  lemma PrependNothing(r: Result<Reservation, PlaceError>)
    ensures Prepend([], r) == r
  {
    if r.Success? {
      assert [] + r.value.lines == r.value.lines;
    }
  }

  lemma PrependTwice(a: seq<OrderLine>, b: seq<OrderLine>, r: Result<Reservation, PlaceError>)
    ensures Prepend(a, Prepend(b, r)) == Prepend(a + b, r)
  {
    if r.Success? {
      assert a + (b + r.value.lines) == (a + b) + r.value.lines;
    }
  }

  /** Total quantity the lines ask of book `id`. */
  function QtyFor(lines: seq<Line>, id: BookId): int {
    if lines == [] then 0
    else
      (if lines[0].bookId == Some(id) && lines[0].quantity.Some? then lines[0].quantity.value else 0)
      + QtyFor(lines[1..], id)
  }

  lemma {:induction false} QtyForValidNonNegative(lines: seq<Line>, id: BookId)
    requires forall i :: 0 <= i < |lines| ==> ValidLine(lines[i])
    ensures QtyFor(lines, id) >= 0
  {
    if lines != [] {
      QtyForValidNonNegative(lines[1..], id);
    }
  }

  /** Every line is well formed and names a stored book. */
  ghost predicate AllKnown(lines: seq<Line>, books: map<BookId, Book>) {
    forall i :: 0 <= i < |lines| ==> ValidLine(lines[i]) && lines[i].bookId.value in books
  }

  /** Every book's stock covers the total quantity the lines ask of it. */
  ghost predicate Covered(lines: seq<Line>, books: map<BookId, Book>) {
    forall id :: id in books ==> QtyFor(lines, id) <= books[id].stock
  }

  /** The whole reservation succeeds exactly when every line is well formed and
      names a stored book, and every book's stock covers the sum of the
      quantities all lines ask of it: repeated lines for one book are checked
      cumulatively. */
  lemma {:induction false} ReserveSucceedsIff(books: map<BookId, Book>, lines: seq<Line>)
    requires forall id :: id in books ==> books[id].stock >= 0
    ensures Reserve(books, lines).Success? <==> AllKnown(lines, books) && Covered(lines, books)
  {
    if lines != [] {
      var l := lines[0];
      if ValidLine(l) && l.bookId.value in books {
        var id, q := l.bookId.value, l.quantity.value;
        var b := books[id];
        if b.stock < q {
          if AllKnown(lines, books) {
            QtyForValidNonNegative(lines[1..], id);
            assert QtyFor(lines, id) == q + QtyFor(lines[1..], id);
          }
        } else {
          var books' := books[id := b.(stock := b.stock - q)];
          ReserveSucceedsIff(books', lines[1..]);
          KnownStep(lines, books, books');
          CoveredStep(lines, books, id, q);
        }
      } else {
        assert !AllKnown(lines, books) by {
          assert !(ValidLine(lines[0]) && lines[0].bookId.value in books);
        }
      }
    }
  }

  /** The first line being known, the rest are known against a catalogue with
      the same books exactly when all lines are. */
  lemma KnownStep(lines: seq<Line>, books: map<BookId, Book>, books': map<BookId, Book>)
    requires lines != [] && ValidLine(lines[0]) && lines[0].bookId.value in books
    requires books'.Keys == books.Keys
    ensures AllKnown(lines, books) <==> AllKnown(lines[1..], books')
  {
    var rest := lines[1..];
    if AllKnown(rest, books') {
      forall i | 0 <= i < |lines| ensures ValidLine(lines[i]) && lines[i].bookId.value in books {
        if i > 0 { assert lines[i] == rest[i - 1]; }
      }
    }
    if AllKnown(lines, books) {
      forall j | 0 <= j < |rest| ensures ValidLine(rest[j]) && rest[j].bookId.value in books' {
        assert rest[j] == lines[j + 1];
      }
    }
  }

  /** Taking the first line's quantity off its book's stock, the rest are
      covered exactly when all lines were covered by the old stock. */
  lemma CoveredStep(lines: seq<Line>, books: map<BookId, Book>, id: BookId, q: int)
    requires lines != [] && lines[0].bookId == Some(id) && lines[0].quantity == Some(q)
    requires id in books
    ensures Covered(lines, books) <==>
      Covered(lines[1..], books[id := books[id].(stock := books[id].stock - q)])
  {
    var books' := books[id := books[id].(stock := books[id].stock - q)];
    var rest := lines[1..];
    assert forall id' :: QtyFor(lines, id') == (if id' == id then q else 0) + QtyFor(rest, id');
    if Covered(lines, books) {
      forall id' | id' in books' ensures QtyFor(rest, id') <= books'[id'].stock {
        assert id' in books;
      }
    }
    if Covered(rest, books') {
      forall id' | id' in books ensures QtyFor(lines, id') <= books[id'].stock {
        assert id' in books';
      }
    }
  }

  /** After a successful reservation each book's stock fell by exactly the sum
      of the quantities of the lines naming it, nothing else about any book
      changed, and no book was added or removed. */
  lemma {:induction false} ReserveStock(books: map<BookId, Book>, lines: seq<Line>)
    requires Reserve(books, lines).Success?
    ensures var after := Reserve(books, lines).value.books;
      && after.Keys == books.Keys
      && forall id :: id in books ==> after[id] == books[id].(stock := books[id].stock - QtyFor(lines, id))
  {
    if lines != [] {
      var id, q := lines[0].bookId.value, lines[0].quantity.value;
      var b := books[id];
      var books' := books[id := b.(stock := b.stock - q)];
      ReserveStock(books', lines[1..]);
    }
  }

  /** A successful reservation remembers one line per request line, in input
      order, each carrying the requested quantity and the book's title, price
      and seller as read during the call. */
  lemma {:induction false} ReserveLines(books: map<BookId, Book>, lines: seq<Line>)
    requires Reserve(books, lines).Success?
    ensures var rs := Reserve(books, lines).value.lines;
      && |rs| == |lines|
      && forall i :: 0 <= i < |lines| ==>
        && lines[i].bookId == Some(rs[i].bookId)
        && lines[i].quantity == Some(rs[i].quantity)
        && rs[i].bookId in books
        && rs[i].title == books[rs[i].bookId].title
        && rs[i].price == books[rs[i].bookId].price
        && rs[i].sellerId == books[rs[i].bookId].sellerId
        && rs[i].sellerName == books[rs[i].bookId].sellerName
  {
    if lines != [] {
      var id, q := lines[0].bookId.value, lines[0].quantity.value;
      var b := books[id];
      var books' := books[id := b.(stock := b.stock - q)];
      ReserveLines(books', lines[1..]);
      var rs := Reserve(books, lines).value.lines;
      var rs' := Reserve(books', lines[1..]).value.lines;
      assert rs == [OrderLine(id, b.title, q, b.price, b.sellerId, b.sellerName)] + rs';
      forall i | 1 <= i < |lines|
        ensures rs[i].bookId in books && rs[i].price == books[rs[i].bookId].price
      {
        assert rs[i] == rs'[i - 1] && lines[i] == lines[1..][i - 1];
      }
    }
  }

  /** Starting from a catalogue whose stocks are non-negative, a successful
      reservation leaves every stock non-negative. */
  lemma ReserveKeepsCatalogue(books: map<BookId, Book>, lines: seq<Line>)
    requires CatalogueOk(books)
    requires Reserve(books, lines).Success?
    ensures CatalogueOk(Reserve(books, lines).value.books)
  {
    ReserveSucceedsIff(books, lines);
    ReserveStock(books, lines);
  }

  // ---------------------------------------------------------------------------
  // Splitting the remembered lines by seller

  /** One entry of the `ordersBySeller` dictionary. */
  datatype SellerGroup = SellerGroup(sellerId: UserId, sellerName: string, items: seq<OrderLine>, total: int)

  /** Position of the group of seller `s`, if there is one. */
  function GroupOf(groups: seq<SellerGroup>, s: UserId): (r: Option<nat>)
    ensures r.Some? ==> r.value < |groups| && groups[r.value].sellerId == s
    ensures r.None? ==> forall k :: 0 <= k < |groups| ==> groups[k].sellerId != s
  {
    if groups == [] then None
    else if groups[|groups| - 1].sellerId == s then Some(|groups| - 1)
    else GroupOf(groups[..|groups| - 1], s)
  }

  /** One step of the forEach: open the seller's group on first sight, then
      append the line and add its price times quantity to the group's total. */
  function AddToGroup(groups: seq<SellerGroup>, item: OrderLine): seq<SellerGroup> {
    match GroupOf(groups, item.sellerId)
    case None => groups + [SellerGroup(item.sellerId, item.sellerName, [item], LineTotal(item))]
    case Some(k) =>
      groups[k := groups[k].(items := groups[k].items + [item], total := groups[k].total + LineTotal(item))]
  }

  /** The dictionary after the forEach over `items`; its values in insertion order. */
  function GroupBySeller(items: seq<OrderLine>): (r: seq<SellerGroup>)
    ensures |r| <= |items|
    ensures items != [] ==> r != []
    decreases |items|
  {
    if items == [] then []
    else AddToGroup(GroupBySeller(items[..|items| - 1]), items[|items| - 1])
  }

  function GroupTotal(g: SellerGroup): int {
    g.total
  }

  function SellerIs(s: UserId): OrderLine -> bool {
    (l: OrderLine) => l.sellerId == s
  }

  /** Index of the first line sold by `s` (|items| when there is none). */
  function FirstOf(items: seq<OrderLine>, s: UserId): (r: nat)
    ensures r <= |items|
    ensures r < |items| ==> items[r].sellerId == s
    ensures forall i :: 0 <= i < r ==> items[i].sellerId != s
  {
    if items == [] then 0
    else if items[0].sellerId == s then 0
    else 1 + FirstOf(items[1..], s)
  }

  lemma FirstOfSnoc(items: seq<OrderLine>, x: OrderLine, s: UserId)
    ensures FirstOf(items + [x], s) ==
      if FirstOf(items, s) < |items| then FirstOf(items, s)
      else if x.sellerId == s then |items| else |items| + 1
  {
    var xs := items + [x];
    var r, r0 := FirstOf(xs, s), FirstOf(items, s);
    assert forall i :: 0 <= i < |items| ==> xs[i] == items[i];
    assert xs[|items|] == x;
    if r0 < |items| {
      assert xs[r0].sellerId == s;
    }
  }

  /** One group per seller: the groups' sellers are pairwise distinct. */
  ghost predicate SellersDistinct(groups: seq<SellerGroup>) {
    forall k, k' :: 0 <= k < k' < |groups| ==> groups[k].sellerId != groups[k'].sellerId
  }

  /** Every line's seller has a group. */
  ghost predicate CoversLines(items: seq<OrderLine>, groups: seq<SellerGroup>) {
    forall i :: 0 <= i < |items| ==> GroupOf(groups, items[i].sellerId).Some?
  }

  /** Every group holds exactly its seller's lines, in input order, and their total. */
  ghost predicate AllHoldOwnLines(items: seq<OrderLine>, groups: seq<SellerGroup>) {
    forall k :: 0 <= k < |groups| ==> HoldsOwnLines(items, groups[k])
  }

  /** Groups are ordered by the first appearance of their seller. */
  ghost predicate FirstAppearanceOrder(items: seq<OrderLine>, groups: seq<SellerGroup>) {
    forall k, k' :: 0 <= k < k' < |groups| ==>
      FirstOf(items, groups[k].sellerId) < FirstOf(items, groups[k'].sellerId) < |items|
  }

  /** What the grouping promises, stated without reference to how it is built. */
  ghost predicate GroupedBySeller(items: seq<OrderLine>, groups: seq<SellerGroup>) {
    && SellersDistinct(groups)
    && CoversLines(items, groups)
    && AllHoldOwnLines(items, groups)
    && FirstAppearanceOrder(items, groups)
  }

  lemma GroupBySellerCorrect(items: seq<OrderLine>)
    ensures GroupedBySeller(items, GroupBySeller(items))
  {
    GroupSellersDistinct(items);
    GroupCoversLines(items);
    GroupContents(items);
    GroupOrder(items);
  }

  lemma {:induction false} GroupSellersDistinct(items: seq<OrderLine>)
    ensures SellersDistinct(GroupBySeller(items))
  {
    if items != [] {
      var pre, x := items[..|items| - 1], items[|items| - 1];
      GroupSellersDistinct(pre);
      var g0, g := GroupBySeller(pre), GroupBySeller(items);
      assert |g| >= |g0|;
      assert forall k :: 0 <= k < |g0| ==> g[k].sellerId == g0[k].sellerId;
      if GroupOf(g0, x.sellerId).None? {
        assert g[|g0|].sellerId == x.sellerId;
      }
    }
  }

  lemma {:induction false} GroupCoversLines(items: seq<OrderLine>)
    ensures CoversLines(items, GroupBySeller(items))
  {
    if items != [] {
      var pre, x := items[..|items| - 1], items[|items| - 1];
      GroupCoversLines(pre);
      var g0, g := GroupBySeller(pre), GroupBySeller(items);
      assert g == AddToGroup(g0, x);
      AddToGroupSellers(g0, x);
      forall i | 0 <= i < |items| ensures GroupOf(g, items[i].sellerId).Some? {
        if i < |pre| {
          assert items[i] == pre[i];
          var k := GroupOf(g0, pre[i].sellerId).value;
          HasGroup(g, k, pre[i].sellerId);
        } else {
          var k := if GroupOf(g0, x.sellerId).Some? then GroupOf(g0, x.sellerId).value else |g0|;
          HasGroup(g, k, x.sellerId);
        }
      }
    }
  }

  /** A group holds exactly its seller's lines, in input order, is named after
      the seller's first line and carries their total. */
  ghost predicate HoldsOwnLines(items: seq<OrderLine>, grp: SellerGroup) {
    && grp.items == Filter(items, SellerIs(grp.sellerId))
    && grp.items != []
    && grp.sellerName == grp.items[0].sellerName
    && grp.total == Sum(grp.items, LineTotal)
  }

  lemma {:induction false} GroupContents(items: seq<OrderLine>)
    ensures AllHoldOwnLines(items, GroupBySeller(items))
  {
    if items != [] {
      var pre, x := items[..|items| - 1], items[|items| - 1];
      assert items == pre + [x];
      GroupContents(pre);
      GroupSellersDistinct(pre);
      GroupCoversLines(pre);
      AddToGroupHolds(pre, x, GroupBySeller(pre));
    }
  }

  /** One step of the forEach keeps every group holding exactly its seller's lines. */
  lemma AddToGroupHolds(pre: seq<OrderLine>, x: OrderLine, g0: seq<SellerGroup>)
    requires AllHoldOwnLines(pre, g0) && CoversLines(pre, g0) && SellersDistinct(g0)
    ensures AllHoldOwnLines(pre + [x], AddToGroup(g0, x))
  {
    var g := AddToGroup(g0, x);
    match GroupOf(g0, x.sellerId)
    case None =>
      NoEarlierLine(pre, g0, x.sellerId);
      OpenGroup(pre, x);
      forall k | 0 <= k < |g| ensures HoldsOwnLines(pre + [x], g[k]) {
        if k < |g0| {
          KeepOtherGroup(pre, x, g0[k]);
        }
      }
    case Some(j) =>
      forall k | 0 <= k < |g| ensures HoldsOwnLines(pre + [x], g[k]) {
        if k == j {
          ExtendGroup(pre, x, g0[k]);
        } else {
          if g0[k].sellerId == x.sellerId {
            SameSellerSameGroup(g0, k, j);
          }
          KeepOtherGroup(pre, x, g0[k]);
        }
      }
  }

  /** A seller without a group has no line yet. */
  lemma NoEarlierLine(pre: seq<OrderLine>, g0: seq<SellerGroup>, s: UserId)
    requires CoversLines(pre, g0) && GroupOf(g0, s).None?
    ensures forall i :: 0 <= i < |pre| ==> pre[i].sellerId != s
  {
  }

  lemma OpenGroup(pre: seq<OrderLine>, x: OrderLine)
    requires forall i :: 0 <= i < |pre| ==> pre[i].sellerId != x.sellerId
    ensures HoldsOwnLines(pre + [x], SellerGroup(x.sellerId, x.sellerName, [x], LineTotal(x)))
  {
    FilterConcat(pre, [x], SellerIs(x.sellerId));
    FilterNone(pre, SellerIs(x.sellerId));
    assert Sum([x], LineTotal) == LineTotal(x);
  }

  lemma KeepOtherGroup(pre: seq<OrderLine>, x: OrderLine, grp: SellerGroup)
    requires HoldsOwnLines(pre, grp) && grp.sellerId != x.sellerId
    ensures HoldsOwnLines(pre + [x], grp)
  {
    FilterConcat(pre, [x], SellerIs(grp.sellerId));
  }

  lemma ExtendGroup(pre: seq<OrderLine>, x: OrderLine, grp: SellerGroup)
    requires HoldsOwnLines(pre, grp) && grp.sellerId == x.sellerId
    ensures HoldsOwnLines(pre + [x], grp.(items := grp.items + [x], total := grp.total + LineTotal(x)))
  {
    FilterConcat(pre, [x], SellerIs(grp.sellerId));
    SumConcat(grp.items, [x], LineTotal);
  }

  lemma {:induction false} GroupOrder(items: seq<OrderLine>)
    ensures FirstAppearanceOrder(items, GroupBySeller(items))
  {
    if items != [] {
      var pre, x := items[..|items| - 1], items[|items| - 1];
      assert items == pre + [x];
      GroupOrder(pre);
      GroupSellersAppear(pre);
      GroupCoversLines(pre);
      OrderStep(pre, x, GroupBySeller(pre));
    }
  }

  lemma GroupSellersAppear(items: seq<OrderLine>)
    ensures forall k :: 0 <= k < |GroupBySeller(items)| ==> FirstOf(items, GroupBySeller(items)[k].sellerId) < |items|
  {
    GroupContents(items);
    var g := GroupBySeller(items);
    forall k | 0 <= k < |g| ensures FirstOf(items, g[k].sellerId) < |items| {
      assert HoldsOwnLines(items, g[k]);
      FilterMembers(items, SellerIs(g[k].sellerId));
      var y := g[k].items[0];
      assert y in items && y.sellerId == g[k].sellerId;
    }
  }

  lemma AddToGroupSellers(g0: seq<SellerGroup>, x: OrderLine)
    ensures var g := AddToGroup(g0, x);
      && |g| == (if GroupOf(g0, x.sellerId).Some? then |g0| else |g0| + 1)
      && (forall k :: 0 <= k < |g0| ==> g[k].sellerId == g0[k].sellerId)
      && (GroupOf(g0, x.sellerId).None? ==> g[|g0|].sellerId == x.sellerId)
  {
  }

  lemma OrderStep(pre: seq<OrderLine>, x: OrderLine, g0: seq<SellerGroup>)
    requires FirstAppearanceOrder(pre, g0)
    requires forall k :: 0 <= k < |g0| ==> FirstOf(pre, g0[k].sellerId) < |pre|
    requires CoversLines(pre, g0)
    ensures FirstAppearanceOrder(pre + [x], AddToGroup(g0, x))
  {
    var xs := pre + [x];
    var g := AddToGroup(g0, x);
    AddToGroupSellers(g0, x);
    if GroupOf(g0, x.sellerId).None? {
      NoEarlierLine(pre, g0, x.sellerId);
    }
    forall k | 0 <= k < |g| ensures FirstOf(xs, g[k].sellerId) == if k < |g0| then FirstOf(pre, g0[k].sellerId) else |pre| {
      FirstOfSnoc(pre, x, g[k].sellerId);
    }
    forall k, k' | 0 <= k < k' < |g| ensures FirstOf(xs, g[k].sellerId) < FirstOf(xs, g[k'].sellerId) < |xs| {
    }
  }

  /** The seller totals add up to the sum over all lines (integer cents: exact). */
  lemma {:induction false} GroupTotals(items: seq<OrderLine>)
    ensures Sum(GroupBySeller(items), GroupTotal) == Sum(items, LineTotal)
  {
    if items != [] {
      var pre, x := items[..|items| - 1], items[|items| - 1];
      assert items == pre + [x];
      GroupTotals(pre);
      SumConcat(pre, [x], LineTotal);
      assert Sum([x], LineTotal) == LineTotal(x);
      AddToGroupTotal(GroupBySeller(pre), x);
    }
  }

  /** Adding a line to the dictionary adds its total to the sum of group totals. */
  lemma AddToGroupTotal(g0: seq<SellerGroup>, x: OrderLine)
    ensures Sum(AddToGroup(g0, x), GroupTotal) == Sum(g0, GroupTotal) + LineTotal(x)
  {
    match GroupOf(g0, x.sellerId)
    case None =>
      SumConcat(g0, [SellerGroup(x.sellerId, x.sellerName, [x], LineTotal(x))], GroupTotal);
    case Some(k) =>
      SumUpdate(g0, k, g0[k].(items := g0[k].items + [x], total := g0[k].total + LineTotal(x)));
  }

  lemma {:induction false} SumUpdate(gs: seq<SellerGroup>, k: nat, g: SellerGroup)
    requires k < |gs|
    ensures Sum(gs[k := g], GroupTotal) == Sum(gs, GroupTotal) - gs[k].total + g.total
  {
    if k > 0 {
      assert gs[k := g][1..] == gs[1..][k - 1 := g];
      SumUpdate(gs[1..], k - 1, g);
    }
  }

  /** The JavaScript loop over the remembered lines, filling the
      `ordersBySeller` dictionary (seller id to the slot of its group) and
      keeping the groups in the order their sellers were first seen. */
  method GroupLines(items: seq<OrderLine>) returns (groups: seq<SellerGroup>)
    ensures groups == GroupBySeller(items)
  {
    groups := [];
    var slot: map<UserId, nat> := map[];
    for i := 0 to |items|
      invariant groups == GroupBySeller(items[..i])
      invariant SlotsIndex(slot, groups)
    {
      assert items[..i + 1][..i] == items[..i] && items[..i + 1][i] == items[i];
      GroupSellersDistinct(items[..i]);
      groups, slot := AddLine(groups, slot, items[i]);
    }
    assert items[..|items|] == items;
  }

  /** The body of the loop: open the seller's group on first sight (an empty
      group with total 0), then push the line and add its total. */
  method AddLine(groups: seq<SellerGroup>, slot: map<UserId, nat>, item: OrderLine)
    returns (newGroups: seq<SellerGroup>, newSlot: map<UserId, nat>)
    requires SlotsIndex(slot, groups) && SellersDistinct(groups)
    ensures newGroups == AddToGroup(groups, item)
    ensures SlotsIndex(newSlot, newGroups)
  {
    AddToGroupBySlot(groups, slot, item);
    newGroups, newSlot := groups, slot;
    if item.sellerId !in newSlot {
      SlotsOpen(newSlot, newGroups, SellerGroup(item.sellerId, item.sellerName, [], 0));
      newSlot := newSlot[item.sellerId := |newGroups|];
      newGroups := newGroups + [SellerGroup(item.sellerId, item.sellerName, [], 0)];
    }
    var k := newSlot[item.sellerId];
    var grown := newGroups[k := newGroups[k].(items := newGroups[k].items + [item], total := newGroups[k].total + LineTotal(item))];
    SlotsKeep(newSlot, newGroups, grown);
    assert [] + [item] == [item];
    newGroups := grown;
  }

  /** `slot` maps exactly the sellers of `groups` to their positions. */
  ghost predicate SlotsIndex(slot: map<UserId, nat>, groups: seq<SellerGroup>) {
    && (forall s :: s in slot ==> slot[s] < |groups| && groups[slot[s]].sellerId == s)
    && (forall k :: 0 <= k < |groups| ==> groups[k].sellerId in slot)
  }

  /** Opening a group for a new seller at the end keeps the index exact. */
  lemma SlotsOpen(slot: map<UserId, nat>, groups: seq<SellerGroup>, grp: SellerGroup)
    requires SlotsIndex(slot, groups) && grp.sellerId !in slot
    ensures SlotsIndex(slot[grp.sellerId := |groups|], groups + [grp])
  {
  }

  /** Changing groups without changing their sellers keeps the index exact. */
  lemma SlotsKeep(slot: map<UserId, nat>, groups: seq<SellerGroup>, newGroups: seq<SellerGroup>)
    requires SlotsIndex(slot, groups)
    requires |newGroups| == |groups| && forall k :: 0 <= k < |groups| ==> newGroups[k].sellerId == groups[k].sellerId
    ensures SlotsIndex(slot, newGroups)
  {
  }

  lemma AddToGroupBySlot(groups: seq<SellerGroup>, slot: map<UserId, nat>, item: OrderLine)
    requires SlotsIndex(slot, groups)
    requires SellersDistinct(groups)
    ensures item.sellerId in slot ==> GroupOf(groups, item.sellerId) == Some(slot[item.sellerId])
    ensures item.sellerId !in slot ==> GroupOf(groups, item.sellerId) == None
  {
    var s := item.sellerId;
    if GroupOf(groups, s).Some? {
      var k := GroupOf(groups, s).value;
      assert groups[k].sellerId in slot;
      if s in slot {
        SameSellerSameGroup(groups, k, slot[s]);
      }
    }
  }

  /** A seller with a group at some position is found by `GroupOf`. */
  lemma HasGroup(groups: seq<SellerGroup>, k: nat, s: UserId)
    requires k < |groups| && groups[k].sellerId == s
    ensures GroupOf(groups, s).Some?
  {
  }

  lemma SameSellerSameGroup(groups: seq<SellerGroup>, k: nat, j: nat)
    requires SellersDistinct(groups)
    requires k < |groups| && j < |groups| && groups[k].sellerId == groups[j].sellerId
    ensures k == j
  {
  }

  // ---------------------------------------------------------------------------
  // POST /orders

  /** What the handler answers with 201: the created orders, whose ids are
      firstId, firstId + 1, ..., and the total over all lines. */
  datatype Placement = Placement(firstId: nat, orders: seq<Order>, totalAmount: int)

  /** The catalogue after a successful call and the answer. */
  datatype Outcome = Outcome(books: map<BookId, Book>, placement: Placement)

  function OrderTotal(o: Order): int {
    o.totalAmount
  }

  /** The order row inserted for one seller's group. */
  function SellerOrder(buyer: UserId, grp: SellerGroup): Order {
    Order(buyer, grp.sellerId, grp.total, Pending, grp.items)
  }

  function OrdersFor(buyer: UserId, groups: seq<SellerGroup>): (r: seq<Order>)
    ensures |r| == |groups|
  {
    seq(|groups|, k requires 0 <= k < |groups| => SellerOrder(buyer, groups[k]))
  }

  /** The whole handler as a function of the catalogue before the call. */
  function Checkout(books: map<BookId, Book>, firstId: nat, buyer: UserId, items: Option<seq<Line>>): (r: Result<Outcome, PlaceError>)
    ensures items.None? || items == Some([]) ==> r == Failure(ItemsRequired)
  {
    if items.None? || |items.value| == 0 then Failure(ItemsRequired)
    else match Reserve(books, items.value)
      case Failure(e) => Failure(e)
      case Success(rv) =>
        Success(Outcome(rv.books, Placement(firstId, OrdersFor(buyer, GroupBySeller(rv.lines)), Sum(rv.lines, LineTotal))))
  }

  /** The remembered lines of a successful call (empty otherwise). */
  function Remembered(books: map<BookId, Book>, items: Option<seq<Line>>): seq<OrderLine> {
    if items.None? then []
    else match Reserve(books, items.value)
      case Success(rv) => rv.lines
      case Failure(_) => []
  }

  /** The call succeeds exactly when `items` is a non-empty list of well-formed
      lines naming stored books and every book's stock covers the total
      quantity the lines ask of it. */
  lemma CheckoutSucceedsIff(books: map<BookId, Book>, firstId: nat, buyer: UserId, items: Option<seq<Line>>)
    requires CatalogueOk(books)
    ensures Checkout(books, firstId, buyer, items).Success? <==>
      && items.Some? && |items.value| > 0
      && (forall i :: 0 <= i < |items.value| ==> ValidLine(items.value[i]) && items.value[i].bookId.value in books)
      && (forall id :: id in books ==> QtyFor(items.value, id) <= books[id].stock)
  {
    if items.Some? && |items.value| > 0 {
      ReserveSucceedsIff(books, items.value);
    }
  }

  /** A malformed line anywhere in the request fails the whole call. */
  lemma InvalidLineFails(books: map<BookId, Book>, firstId: nat, buyer: UserId, items: seq<Line>, i: nat)
    requires CatalogueOk(books)
    requires i < |items| && !ValidLine(items[i])
    ensures Checkout(books, firstId, buyer, Some(items)).Failure?
  {
    CheckoutSucceedsIff(books, firstId, buyer, Some(items));
  }

  /** A line naming a book that is not stored fails the whole call. */
  lemma UnknownBookFails(books: map<BookId, Book>, firstId: nat, buyer: UserId, items: seq<Line>, i: nat)
    requires CatalogueOk(books)
    requires i < |items| && items[i].bookId.Some? && items[i].bookId.value !in books
    ensures Checkout(books, firstId, buyer, Some(items)).Failure?
  {
    CheckoutSucceedsIff(books, firstId, buyer, Some(items));
  }

  /** Two lines for one book are checked together: asking for more than the
      stock in total fails, even when each line alone would fit. */
  lemma RepeatedLinesCheckedTogether(books: map<BookId, Book>, firstId: nat, buyer: UserId, id: BookId, q1: int, q2: int)
    requires CatalogueOk(books) && id in books
    requires q1 > 0 && q2 > 0 && q1 + q2 > books[id].stock
    ensures Checkout(books, firstId, buyer, Some([Line(Some(id), Some(q1)), Line(Some(id), Some(q2))])).Failure?
  {
    var lines := [Line(Some(id), Some(q1)), Line(Some(id), Some(q2))];
    assert lines[1..][1..] == [];
    assert QtyFor(lines[1..], id) == q2;
    assert QtyFor(lines, id) == q1 + q2;
    CheckoutSucceedsIff(books, firstId, buyer, Some(lines));
  }

  /** On success each stock falls by the total quantity asked of its book, a
      book no line names is untouched, no book appears or disappears, and every
      stock stays non-negative. */
  lemma CheckoutStock(books: map<BookId, Book>, firstId: nat, buyer: UserId, items: Option<seq<Line>>)
    requires CatalogueOk(books)
    requires Checkout(books, firstId, buyer, items).Success?
    ensures var after := Checkout(books, firstId, buyer, items).value.books;
      && CatalogueOk(after)
      && after.Keys == books.Keys
      && (forall id :: id in books ==> after[id] == books[id].(stock := books[id].stock - QtyFor(items.value, id)))
      && (forall id :: id in books && (forall i :: 0 <= i < |items.value| ==> items.value[i].bookId != Some(id)) ==>
            after[id] == books[id])
  {
    var lines := items.value;
    ReserveStock(books, lines);
    ReserveKeepsCatalogue(books, lines);
    forall id | id in books && (forall i :: 0 <= i < |lines| ==> lines[i].bookId != Some(id))
      ensures QtyFor(lines, id) == 0
    {
      QtyForUnnamed(lines, id);
    }
  }

  lemma {:induction false} QtyForUnnamed(lines: seq<Line>, id: BookId)
    requires forall i :: 0 <= i < |lines| ==> lines[i].bookId != Some(id)
    ensures QtyFor(lines, id) == 0
  {
    if lines != [] {
      QtyForUnnamed(lines[1..], id);
    }
  }

  /** On success the call remembers one line per request line, in request
      order, carrying the requested quantity and the title, price and seller
      the book had before the call. */
  lemma CheckoutSnapshotsPrices(books: map<BookId, Book>, firstId: nat, buyer: UserId, items: Option<seq<Line>>)
    requires Checkout(books, firstId, buyer, items).Success?
    ensures var rs := Remembered(books, items);
      && |rs| == |items.value|
      && forall i :: 0 <= i < |rs| ==>
        && items.value[i].bookId == Some(rs[i].bookId)
        && items.value[i].quantity == Some(rs[i].quantity)
        && rs[i].bookId in books
        && rs[i].price == books[rs[i].bookId].price
        && rs[i].title == books[rs[i].bookId].title
        && rs[i].sellerId == books[rs[i].bookId].sellerId
  {
    ReserveLines(books, items.value);
  }

  /** One pending order of `buyer` per distinct seller of `rs`, in order of
      the seller's first line; each holds exactly that seller's lines in
      order, and their total. */
  ghost predicate SplitBySeller(rs: seq<OrderLine>, buyer: UserId, orders: seq<Order>) {
    && (forall k, k' :: 0 <= k < k' < |orders| ==> orders[k].sellerId != orders[k'].sellerId)
    && (forall i :: 0 <= i < |rs| ==> exists k :: 0 <= k < |orders| && orders[k].sellerId == rs[i].sellerId)
    && (forall k :: 0 <= k < |orders| ==>
          && orders[k].buyerId == buyer
          && orders[k].status == Pending
          && orders[k].items == Filter(rs, SellerIs(orders[k].sellerId))
          && orders[k].items != []
          && orders[k].totalAmount == Sum(orders[k].items, LineTotal))
    && (forall k, k' :: 0 <= k < k' < |orders| ==>
          FirstOf(rs, orders[k].sellerId) < FirstOf(rs, orders[k'].sellerId) < |rs|)
  }

  /** Turning correctly grouped lines into order rows keeps the grouping. */
  lemma OrdersForSplit(rs: seq<OrderLine>, buyer: UserId, groups: seq<SellerGroup>)
    requires GroupedBySeller(rs, groups)
    ensures SplitBySeller(rs, buyer, OrdersFor(buyer, groups))
  {
    var orders := OrdersFor(buyer, groups);
    assert SellersDistinct(groups) && CoversLines(rs, groups);
    assert AllHoldOwnLines(rs, groups) && FirstAppearanceOrder(rs, groups);
    forall k | 0 <= k < |orders|
      ensures orders[k] == SellerOrder(buyer, groups[k])
      ensures orders[k].sellerId == groups[k].sellerId
    {
    }
    forall k, k' | 0 <= k < k' < |orders| ensures orders[k].sellerId != orders[k'].sellerId {
    }
    forall i | 0 <= i < |rs| ensures exists k :: 0 <= k < |orders| && orders[k].sellerId == rs[i].sellerId {
      var k := GroupOf(groups, rs[i].sellerId).value;
      assert orders[k].sellerId == rs[i].sellerId;
    }
    forall k | 0 <= k < |orders|
      ensures && orders[k].buyerId == buyer
              && orders[k].status == Pending
              && orders[k].items == Filter(rs, SellerIs(orders[k].sellerId))
              && orders[k].items != []
              && orders[k].totalAmount == Sum(orders[k].items, LineTotal)
    {
      assert HoldsOwnLines(rs, groups[k]);
    }
    forall k, k' | 0 <= k < k' < |orders|
      ensures FirstOf(rs, orders[k].sellerId) < FirstOf(rs, orders[k'].sellerId) < |rs|
    {
    }
  }

  /** On success exactly one pending order per distinct seller is created for
      the caller, in order of the seller's first line, each holding exactly
      that seller's remembered lines in request order and their total; the
      orders get consecutive ids from `firstId`. */
  lemma CheckoutSplitsBySeller(books: map<BookId, Book>, firstId: nat, buyer: UserId, items: Option<seq<Line>>)
    requires Checkout(books, firstId, buyer, items).Success?
    ensures Checkout(books, firstId, buyer, items).value.placement.firstId == firstId
    ensures SplitBySeller(Remembered(books, items), buyer, Checkout(books, firstId, buyer, items).value.placement.orders)
  {
    var rs := Remembered(books, items);
    GroupBySellerCorrect(rs);
    OrdersForSplit(rs, buyer, GroupBySeller(rs));
  }

  /** The answer's `totalAmount` is the sum over the remembered lines of price
      times quantity and equals the sum of the created orders' totals. */
  lemma CheckoutTotals(books: map<BookId, Book>, firstId: nat, buyer: UserId, items: Option<seq<Line>>)
    requires Checkout(books, firstId, buyer, items).Success?
    ensures var p := Checkout(books, firstId, buyer, items).value.placement;
      && p.totalAmount == Sum(Remembered(books, items), LineTotal)
      && p.totalAmount == Sum(p.orders, OrderTotal)
  {
    var rs := Remembered(books, items);
    GroupTotals(rs);
    SumOrdersFor(buyer, GroupBySeller(rs));
  }

  lemma {:induction false} SumOrdersFor(buyer: UserId, groups: seq<SellerGroup>)
    ensures Sum(OrdersFor(buyer, groups), OrderTotal) == Sum(groups, GroupTotal)
  {
    if groups != [] {
      assert OrdersFor(buyer, groups)[1..] == OrdersFor(buyer, groups[1..]);
      SumOrdersFor(buyer, groups[1..]);
    }
  }

  /** The transaction. Lines are validated, checked and their stock
      decremented one by one; the first failure restores the catalogue as it
      was at BEGIN (ROLLBACK) and answers 400. Otherwise one pending order per
      seller is appended and the transaction commits. */
  method PlaceOrder(db: Database, buyer: UserId, items: Option<seq<Line>>) returns (r: Result<Placement, PlaceError>)
    requires db.Valid()
    modifies db
    ensures db.Valid()
    ensures db.wishlist == old(db.wishlist) && db.shares == old(db.shares)
    ensures match Checkout(old(db.books), |old(db.orders)|, buyer, items)
      case Failure(e) => r == Failure(e) && db.books == old(db.books) && db.orders == old(db.orders)
      case Success(out) =>
        && r == Success(out.placement)
        && db.books == out.books
        && db.orders == old(db.orders) + out.placement.orders
  {
    if items.None? || |items.value| == 0 {
      return Failure(ItemsRequired);
    }
    var lines := items.value;
    var snapshot := db.books;  // BEGIN
    var reserved, totalAmount := ReserveAll(db, lines);
    if reserved.Failure? {
      db.books := snapshot;  // ROLLBACK
      return Failure(reserved.error);
    }
    var orderItems := reserved.value;
    var groups := GroupLines(orderItems);
    var firstId := |db.orders|;
    var created := InsertOrders(db, buyer, groups);
    r := Success(Placement(firstId, created, totalAmount));  // COMMIT
    PlacementKeepsValid(snapshot, lines, old(db.orders), buyer);
  }

  /** The loop over the request lines. On failure the decrements made so far
      stay in place: undoing them is the caller's ROLLBACK. */
  method ReserveAll(db: Database, lines: seq<Line>) returns (r: Result<seq<OrderLine>, PlaceError>, totalAmount: int)
    modifies db`books
    ensures r.Failure? ==> Reserve(old(db.books), lines) == Failure(r.error)
    ensures r.Success? ==> Reserve(old(db.books), lines) == Success(Reservation(db.books, r.value))
    ensures r.Success? ==> totalAmount == Sum(r.value, LineTotal)
  {
    totalAmount := 0;
    var orderItems: seq<OrderLine> := [];
    assert lines[0..] == lines;
    PrependNothing(Reserve(db.books, lines));
    for i := 0 to |lines|
      invariant Reserve(old(db.books), lines) == Prepend(orderItems, Reserve(db.books, lines[i..]))
      invariant totalAmount == Sum(orderItems, LineTotal)
    {
      assert lines[i..][1..] == lines[i + 1..] && lines[i..][0] == lines[i];
      var line := lines[i];
      if !ValidLine(line) {
        return Failure(InvalidItem), totalAmount;
      }
      var id, quantity := line.bookId.value, line.quantity.value;
      if id !in db.books {
        return Failure(BookNotFound(id)), totalAmount;
      }
      var book := db.books[id];
      if book.stock < quantity {
        return Failure(InsufficientStock(book.title)), totalAmount;
      }
      var item := OrderLine(id, book.title, quantity, book.price, book.sellerId, book.sellerName);
      SumConcat(orderItems, [item], LineTotal);
      PrependTwice(orderItems, [item], Reserve(db.books[id := book.(stock := book.stock - quantity)], lines[i + 1..]));
      totalAmount := totalAmount + book.price * quantity;
      orderItems := orderItems + [item];
      db.books := db.books[id := book.(stock := book.stock - quantity)];
    }
    assert lines[|lines|..] == [] && orderItems + [] == orderItems;
    r := Success(orderItems);
  }

  /** The loop inserting one order row (with its items) per seller group. */
  method InsertOrders(db: Database, buyer: UserId, groups: seq<SellerGroup>) returns (created: seq<Order>)
    modifies db`orders
    ensures created == OrdersFor(buyer, groups)
    ensures db.orders == old(db.orders) + created
  {
    created := [];
    for k := 0 to |groups|
      invariant created == OrdersFor(buyer, groups[..k])
      invariant db.orders == old(db.orders) + created
    {
      var order := SellerOrder(buyer, groups[k]);
      assert OrdersFor(buyer, groups[..k + 1]) == created + [order];
      db.orders := db.orders + [order];
      created := created + [order];
    }
    assert groups[..|groups|] == groups;
  }

  /** A successful placement keeps the database invariant: stocks stay
      non-negative and every new order item names a stored book. */
  lemma PlacementKeepsValid(books: map<BookId, Book>, lines: seq<Line>, orders: seq<Order>, buyer: UserId)
    requires CatalogueOk(books) && ItemsReferToBooks(orders, books)
    requires Reserve(books, lines).Success?
    ensures var rv := Reserve(books, lines).value;
      && CatalogueOk(rv.books)
      && rv.books.Keys == books.Keys
      && ItemsReferToBooks(orders + OrdersFor(buyer, GroupBySeller(rv.lines)), rv.books)
  {
    var rv := Reserve(books, lines).value;
    ReserveKeepsCatalogue(books, lines);
    ReserveStock(books, lines);
    ReserveLines(books, lines);
    assert forall i :: 0 <= i < |rv.lines| ==> rv.lines[i].bookId in rv.books;
    NewOrdersReferToBooks(rv.lines, buyer, rv.books);
    ItemsReferSameKeys(orders, books, rv.books);
    ItemsReferAppend(orders, OrdersFor(buyer, GroupBySeller(rv.lines)), rv.books);
  }

  /** The orders made from lines naming stored books name only stored books. */
  lemma NewOrdersReferToBooks(rs: seq<OrderLine>, buyer: UserId, books: map<BookId, Book>)
    requires forall i :: 0 <= i < |rs| ==> rs[i].bookId in books
    ensures ItemsReferToBooks(OrdersFor(buyer, GroupBySeller(rs)), books)
  {
    GroupContents(rs);
    var groups := GroupBySeller(rs);
    forall k | 0 <= k < |groups| {
      FilterMembers(rs, SellerIs(groups[k].sellerId));
    }
  }

  lemma ItemsReferSameKeys(orders: seq<Order>, books: map<BookId, Book>, books': map<BookId, Book>)
    requires ItemsReferToBooks(orders, books) && books'.Keys == books.Keys
    ensures ItemsReferToBooks(orders, books')
  {
  }

  lemma ItemsReferAppend(a: seq<Order>, b: seq<Order>, books: map<BookId, Book>)
    requires ItemsReferToBooks(a, books) && ItemsReferToBooks(b, books)
    ensures ItemsReferToBooks(a + b, books)
  {
    forall i, j | 0 <= i < |a + b| && 0 <= j < |(a + b)[i].items| ensures (a + b)[i].items[j].bookId in books {
      if i >= |a| {
        assert (a + b)[i] == b[i - |a|];
      }
    }
  }

  // ---------------------------------------------------------------------------
  // PATCH /orders/:id/status

  datatype StatusError =
    | InvalidStatus   // 400 "Invalid status"
    | OrderNotFound   // 404
    | NotYourOrder    // 403 "You can only update your own orders"

  /** The guard chain: enum membership first, then existence, then ownership. */
  function CheckStatusUpdate(orders: seq<Order>, caller: UserId, id: nat, status: Option<string>): (r: Result<Status, StatusError>)
    ensures r.Success? <==> status.Some? && status.value in ValidStatuses && id < |orders| && orders[id].sellerId == caller
    ensures r.Success? ==> StatusName(r.value) == status.value
    ensures ParseStatus(status).None? ==> r == Failure(InvalidStatus)
    ensures ParseStatus(status).Some? && id >= |orders| ==> r == Failure(OrderNotFound)
    ensures ParseStatus(status).Some? && id < |orders| && orders[id].sellerId != caller ==> r == Failure(NotYourOrder)
  {
    match ParseStatus(status)
    case None => Failure(InvalidStatus)
    case Some(st) =>
      if id >= |orders| then Failure(OrderNotFound)
      else if orders[id].sellerId != caller then Failure(NotYourOrder)
      else Success(st)
  }

  /** The single field write: only the status of order `id` changes. */
  function SetStatus(orders: seq<Order>, id: nat, st: Status): (r: seq<Order>)
    requires id < |orders|
    ensures |r| == |orders|
    ensures r[id].status == st && r[id] == orders[id].(status := st)
    ensures forall j :: 0 <= j < |orders| && j != id ==> r[j] == orders[j]
  {
    orders[id := orders[id].(status := st)]
  }

  method UpdateOrderStatus(db: Database, caller: UserId, id: nat, status: Option<string>) returns (r: Result<Order, StatusError>)
    requires db.Valid()
    modifies db
    ensures db.Valid()
    ensures db.books == old(db.books) && db.wishlist == old(db.wishlist) && db.shares == old(db.shares)
    ensures match CheckStatusUpdate(old(db.orders), caller, id, status)
      case Failure(e) => r == Failure(e) && db.orders == old(db.orders)
      case Success(st) => db.orders == SetStatus(old(db.orders), id, st) && r == Success(db.orders[id])
  {
    var check := CheckStatusUpdate(db.orders, caller, id, status);
    if check.Failure? {
      return Failure(check.error);
    }
    db.orders := SetStatus(db.orders, id, check.value);
    r := Success(db.orders[id]);
  }

  /** No transition graph is enforced: the owning seller may move an order
      from whatever status it has to any of the five. */
  lemma {:induction false} AnyTransitionAccepted(orders: seq<Order>, caller: UserId, id: nat, st: Status)
    requires id < |orders| && orders[id].sellerId == caller
    ensures CheckStatusUpdate(orders, caller, id, Some(StatusName(st))) == Success(st)
    ensures CheckStatusUpdate(SetStatus(orders, id, st), caller, id, Some(StatusName(st))) == Success(st)
  {
    ParseStatusName(st);
  }

  /** Setting the same status twice leaves the same orders as setting it once. */
  lemma StatusUpdateIdempotent(orders: seq<Order>, id: nat, st: Status)
    requires id < |orders|
    ensures SetStatus(SetStatus(orders, id, st), id, st) == SetStatus(orders, id, st)
  {
  }
}
