/** The inventory and per-user cart views: borrowing and returning one unit
    of a catalog item (a dual write to the item's stock and the user's ledger
    row), the per-user cart viewset (get-or-create, remove one line, clear),
    the two soft deletes of an item, and the listing helpers that read the
    query string. */
module InventoryViews {
  import opened Common
  import opened Text
  import opened CartModels

  /** The ledger row of a borrower for one item. */
  type LedgerKey = (UserId, ItemId)

  /** The catalog and the ledger of borrowed units. */
  datatype Stock = Stock(items: map<ItemId, Item>, ledger: map<LedgerKey, nat>)

  predicate StockNonNegative(items: map<ItemId, Item>) {
    forall id :: id in items ==> items[id].inStock >= 0
  }

  /** `add_to_inventory_view`: user `u` borrows one unit of item `id`. A
      ledger row the view creates gets the model's default quantity,
      `created`. */
  function Borrowed(s: Stock, u: UserId, id: ItemId, created: nat): (r: (Status, Stock))
    ensures r.0 == NoContent <==> id in s.items && s.items[id].inStock > 0
    ensures r.0 == NotFound <==> id !in s.items
    ensures r.0 == BadRequest <==> id in s.items && s.items[id].inStock <= 0
    ensures r.0 != NoContent ==> r.1 == s
    ensures r.0 == NoContent ==>
      && r.1.items.Keys == s.items.Keys
      && r.1.items[id] == s.items[id].(inStock := s.items[id].inStock - 1)
      && (forall j :: j in s.items && j != id ==> r.1.items[j] == s.items[j])
      && r.1.ledger.Keys == s.ledger.Keys + {(u, id)}
      && r.1.ledger[(u, id)] == (if (u, id) in s.ledger then s.ledger[(u, id)] + 1 else created)
      && (forall k :: k in s.ledger && k != (u, id) ==> r.1.ledger[k] == s.ledger[k])
    ensures StockNonNegative(s.items) ==> StockNonNegative(r.1.items)
  {
    var key := (u, id);
    if id !in s.items then (NotFound, s)
    else if s.items[id].inStock <= 0 then (BadRequest, s)
    else
      var held := if key in s.ledger then s.ledger[key] + 1 else created;
      var item := s.items[id];
      (NoContent, Stock(s.items[id := item.(inStock := item.inStock - 1)], s.ledger[key := held]))
  }

  /** `remove_from_inventory_view`: user `u` hands back one unit of item `id`. */
  function Returned(s: Stock, u: UserId, id: ItemId): (r: (Status, Stock))
    ensures r.0 == NoContent <==> id in s.items && (u, id) in s.ledger
    ensures r.0 != NoContent ==> r.0 == NotFound && r.1 == s
    ensures r.0 == NoContent ==>
      && r.1.items.Keys == s.items.Keys
      && r.1.items[id] == s.items[id].(inStock := s.items[id].inStock + 1)
      && (forall j :: j in s.items && j != id ==> r.1.items[j] == s.items[j])
      && (s.ledger[(u, id)] > 1 ==>
            r.1.ledger.Keys == s.ledger.Keys && r.1.ledger[(u, id)] == s.ledger[(u, id)] - 1)
      && (s.ledger[(u, id)] <= 1 ==> r.1.ledger.Keys == s.ledger.Keys - {(u, id)})
      && (forall k :: k in s.ledger && k != (u, id) ==> r.1.ledger[k] == s.ledger[k])
    ensures StockNonNegative(s.items) ==> StockNonNegative(r.1.items)
  {
    var key := (u, id);
    if id !in s.items || key !in s.ledger then (NotFound, s)
    else
      var held := s.ledger[key];
      var ledger := if held > 1 then s.ledger[key := held - 1] else s.ledger - {key};
      var item := s.items[id];
      (NoContent, Stock(s.items[id := item.(inStock := item.inStock + 1)], ledger))
  }

  /** The round trip needs the borrow to succeed: a refused borrow of an
      item out of stock, followed by a return from a user who holds a row,
      leaves one unit more in stock than before. */
  lemma RefusedBorrowThenReturn(s: Stock, u: UserId, id: ItemId, created: nat)
    requires id in s.items && s.items[id].inStock == 0 && (u, id) in s.ledger
    ensures var b := Borrowed(s, u, id, created);
      var r := Returned(b.1, u, id);
      && b.0 == BadRequest && b.1 == s
      && r.0 == NoContent && r.1.items[id].inStock == 1
  {
  }

  /** Borrowing and then returning restores the catalog; it restores the
      ledger too when the user already held at least one unit, or held none
      and a new row starts at no more than one. */
  lemma BorrowThenReturn(s: Stock, u: UserId, id: ItemId, created: nat)
    requires id in s.items && s.items[id].inStock > 0
    ensures var b := Borrowed(s, u, id, created);
      var r := Returned(b.1, u, id);
      && b.0 == NoContent && r.0 == NoContent
      && r.1.items == s.items
      && ((u, id) in s.ledger && s.ledger[(u, id)] >= 1 ==> r.1.ledger == s.ledger)
      && ((u, id) !in s.ledger && created <= 1 ==> r.1.ledger == s.ledger)
  {
    var key := (u, id);
    var b := Borrowed(s, u, id, created).1;
    var r := Returned(b, u, id).1;
    assert r.items == s.items by {
      assert r.items.Keys == s.items.Keys;
      assert r.items[id] == s.items[id];
    }
    if key in s.ledger && s.ledger[key] >= 1 {
      assert r.ledger.Keys == s.ledger.Keys;
      assert r.ledger[key] == s.ledger[key];
    }
    if key !in s.ledger && created <= 1 {
      assert r.ledger.Keys == s.ledger.Keys;
    }
  }

  /** A ledger row holding 0 units does not survive a borrow and return:
      the return deletes it. */
  lemma BorrowThenReturnDropsEmptyRow(s: Stock, u: UserId, id: ItemId, created: nat)
    requires id in s.items && s.items[id].inStock > 0
    requires (u, id) in s.ledger && s.ledger[(u, id)] == 0
    ensures (u, id) !in Returned(Borrowed(s, u, id, created).1, u, id).1.ledger
  {
  }

  /** When a new row starts above one unit, the return leaves a row behind. */
  lemma BorrowThenReturnLeavesRow(s: Stock, u: UserId, id: ItemId, created: nat)
    requires id in s.items && s.items[id].inStock > 0
    requires (u, id) !in s.ledger && created >= 2
    ensures var r := Returned(Borrowed(s, u, id, created).1, u, id).1;
      (u, id) in r.ledger && r.ledger[(u, id)] == created - 1
  {
    var b := Borrowed(s, u, id, created).1;
    assert b.ledger[(u, id)] == created;
  }

  /** Five in stock, three borrows by one user, one return: the user holds
      `created + 1` units and three are in stock (2 and 3 when rows start at 1). */
  lemma ThreeBorrowsOneReturn(s: Stock, u: UserId, id: ItemId, created: nat)
    requires id in s.items && s.items[id].inStock == 5 && (u, id) !in s.ledger
    ensures var s1 := Borrowed(s, u, id, created).1;
      var s2 := Borrowed(s1, u, id, created).1;
      var s3 := Borrowed(s2, u, id, created).1;
      var s4 := Returned(s3, u, id).1;
      && s3.items[id].inStock == 2 && s3.ledger[(u, id)] == created + 2
      && s4.items[id].inStock == 3 && s4.ledger[(u, id)] == created + 1
  {
    var s1 := Borrowed(s, u, id, created).1;
    var s2 := Borrowed(s1, u, id, created).1;
    var s3 := Borrowed(s2, u, id, created).1;
    assert s3.ledger[(u, id)] == created + 2;
  }

  /** `request.user.is_staff or request.user.is_superuser`. */
  predicate MayDelete(u: User) {
    u.isStaff || u.isSuperuser
  }

  /** `str(request.POST.get('force', '')).lower() in ('1', 'true', 'yes')`. */
  predicate IsForce(force: Option<string>) {
    var f := Lower(OrEmpty(force));
    f == "1" || f == "true" || f == "yes"
  }

  /** The force flag is set by "1" and by "true" and "yes" in any mix of
      case, and by nothing else. */
  lemma IsForceExactly(s: string)
    ensures IsForce(Some(s)) <==>
      || s == "1"
      || (|s| == 4 && s[0] in "tT" && s[1] in "rR" && s[2] in "uU" && s[3] in "eE")
      || (|s| == 3 && s[0] in "yY" && s[1] in "eE" && s[2] in "sS")
  {
    var f := Lower(s);
    if |s| == 1 {
      assert f == "1" <==> s == "1";
    }
    if |s| == 4 {
      assert f == "true" <==> f[0] == 't' && f[1] == 'r' && f[2] == 'u' && f[3] == 'e';
    }
    if |s| == 3 {
      assert f == "yes" <==> f[0] == 'y' && f[1] == 'e' && f[2] == 's';
    }
  }

  /** A soft delete by `actor`: the item becomes inactive and, when the
      assignment is accepted, records who changed it; nothing else changes.
      Assigning the anonymous user raises, and the view ignores that. */
  function SoftDeleted(x: Item, actor: User): (r: Item)
    ensures !r.isActive
    ensures r.updatedBy == (if actor.isAuthenticated then Some(actor.id) else x.updatedBy)
    ensures r.(isActive := x.isActive, updatedBy := x.updatedBy) == x
  {
    x.(isActive := false, updatedBy := if actor.isAuthenticated then Some(actor.id) else x.updatedBy)
  }

  /** `get_pos_int_parameter` as written: the parsed value is kept only when
      it is NOT positive; a positive value, an absent parameter and a value
      `int()` rejects all give `default`. */
  function GetPosIntParameter(query: map<string, string>, name: string, default: int,
                              parseInt: string -> Option<int>): (r: int)
    ensures r > 0 ==> r == default
    ensures r != default ==> name in query && parseInt(query[name]) == Some(r) && r <= 0
    ensures name in query && parseInt(query[name]).Some? && parseInt(query[name]).value <= 0 ==>
      r == parseInt(query[name]).value
  {
    if name !in query then default
    else
      match parseInt(query[name])
      case None => default
      case Some(n) => if n > 0 then default else n
  }

  /** What the helper's name promises: a positive request value wins, and
      anything else falls back to `default`. */
  function PositiveIntParameter(query: map<string, string>, name: string, default: int,
                                parseInt: string -> Option<int>): (r: int)
    ensures default > 0 ==> r > 0
    ensures name in query && parseInt(query[name]).Some? && parseInt(query[name]).value > 0 ==>
      r == parseInt(query[name]).value
    ensures r != default ==> name in query && parseInt(query[name]) == Some(r) && r > 0
  {
    if name !in query then default
    else
      match parseInt(query[name])
      case None => default
      case Some(n) => if n > 0 then n else default
  }

  /** `?page=3` with default 1: the helper as written answers 1, the intended
      one 3. */
  lemma PageThreeIsIgnored(parseInt: string -> Option<int>)
    requires parseInt("3") == Some(3)
    ensures GetPosIntParameter(map["page" := "3"], "page", 1, parseInt) == 1
    ensures PositiveIntParameter(map["page" := "3"], "page", 1, parseInt) == 3
  {
  }

  /** The page size and page number `inventory` asks the paginator for,
      read with the helper as its name describes it: both always positive. */
  function PageRequest(query: map<string, string>, parseInt: string -> Option<int>): (r: (int, int))
    ensures r.0 >= 1 && r.1 >= 1
    ensures "per_page" !in query ==> r.0 == 10
    ensures "page" !in query ==> r.1 == 1
  {
    (PositiveIntParameter(query, "per_page", 10, parseInt), PositiveIntParameter(query, "page", 1, parseInt))
  }

  /** `?per_page=0`: the helper as written hands the paginator a page size
      of 0; the intended helper keeps the default 10. */
  lemma PerPageZeroReachesPaginator(parseInt: string -> Option<int>)
    requires parseInt("0") == Some(0)
    ensures GetPosIntParameter(map["per_page" := "0"], "per_page", 10, parseInt) == 0
    ensures PageRequest(map["per_page" := "0"], parseInt).0 == 10
  {
    assert "page" !in map["per_page" := "0"];
  }

  /** The `status` filter: "in" stock, "out" of stock, "low" against the
      item's total amount; any other value filters nothing. */
  predicate StatusHolds(status: Option<string>, x: Item) {
    if status == Some("in") then x.inStock > 0
    else if status == Some("out") then x.inStock == 0
    else if status == Some("low") then x.inStock < x.totalAmount
    else true
  }

  /** The `q` filter: empty, or found without regard to case in the name or the SKU. */
  predicate MatchesText(x: Item, q: string) {
    q == "" || ContainsIgnoreCase(x.name, q) || ContainsIgnoreCase(x.sku, q)
  }

  /** The `category` filter: absent or empty, or the item's category name
      equals it without regard to case. */
  predicate MatchesCategory(x: Item, categories: map<CategoryId, string>, category: Option<string>) {
    !Truthy(category) || (x.category in categories && EqualsIgnoreCase(categories[x.category], category.value))
  }

  predicate Listed(x: Item, categories: map<CategoryId, string>, q: string,
                   status: Option<string>, category: Option<string>) {
    x.isActive && MatchesText(x, q) && MatchesCategory(x, categories, category) && StatusHolds(status, x)
  }

  /** The `q` step: with a non-empty `q`, the rows whose name or SKU contains it. */
  function ByText(s: seq<Item>, q: string): (r: seq<Item>)
    ensures |r| <= |s|
    ensures forall x :: x in r <==> x in s && MatchesText(x, q)
  {
    if q != "" then Filter(s, (x: Item) => ContainsIgnoreCase(x.name, q) || ContainsIgnoreCase(x.sku, q))
    else s
  }

  /** The `category` step: with a non-empty category, the rows in the
      category of that name. */
  function ByCategory(s: seq<Item>, categories: map<CategoryId, string>, category: Option<string>)
    : (r: seq<Item>)
    ensures |r| <= |s|
    ensures forall x :: x in r <==> x in s && MatchesCategory(x, categories, category)
  {
    if Truthy(category) then
      var name := category.value;
      Filter(s, (x: Item) => x.category in categories && EqualsIgnoreCase(categories[x.category], name))
    else s
  }

  /** The `status` step. */
  function ByStatus(s: seq<Item>, status: Option<string>): (r: seq<Item>)
    ensures |r| <= |s|
    ensures forall x :: x in r <==> x in s && StatusHolds(status, x)
  {
    if status == Some("in") then Filter(s, (x: Item) => x.inStock > 0)
    else if status == Some("out") then Filter(s, (x: Item) => x.inStock == 0)
    else if status == Some("low") then Filter(s, (x: Item) => x.inStock < x.totalAmount)
    else s
  }

  /** `filter_items`: the active items that pass every filter the query sets. */
  function FilterItems(items: seq<Item>, categories: map<CategoryId, string>, query: map<string, string>)
    : (r: seq<Item>)
    ensures |r| <= |items|
    ensures forall x :: x in r <==>
      x in items && Listed(x, categories, Strip(OrEmpty(Get(query, "q"))), Get(query, "status"), Get(query, "category"))
  {
    var active := Filter(items, (x: Item) => x.isActive);
    var byText := ByText(active, Strip(OrEmpty(Get(query, "q"))));
    var byCategory := ByCategory(byText, categories, Get(query, "category"));
    ByStatus(byCategory, Get(query, "status"))
  }

  /** A soft-deleted item never appears in the listing. */
  lemma SoftDeletedIsNotListed(items: seq<Item>, categories: map<CategoryId, string>,
                               query: map<string, string>, x: Item, actor: User)
    ensures SoftDeleted(x, actor) !in FilterItems(items, categories, query)
  {
  }

  class Store {
    /** Item table by primary key. */
    var items: map<ItemId, Item>
    /** ItemCategory table: primary key to name. */
    var categories: map<CategoryId, string>
    /** Borrow rows: units of an item a user holds. */
    var ledger: map<LedgerKey, nat>
    /** Cart table: primary key to owner. */
    var carts: map<CartId, UserId>
    /** CartItem table. */
    var lines: seq<CartItem>
    /** The next primary keys the database will hand out. */
    var nextItemId: ItemId
    var nextCartId: CartId

    ghost predicate Valid()
      reads this
    {
      && (forall id :: id in items ==> items[id].id == id && id < nextItemId)
      && (forall key :: key in ledger ==> key.1 in items)
      && WellFormed(carts, lines)
      && (forall c :: c in carts ==> c < nextCartId)
    }

    function CurrentStock(): Stock
      reads this
    {
      Stock(items, ledger)
    }

    constructor (categories: map<CategoryId, string>)
      ensures Valid()
      ensures this.categories == categories
      ensures items == map[] && ledger == map[] && carts == map[] && lines == []
    {
      this.categories := categories;
      items, ledger, carts, lines := map[], map[], map[], [];
      nextItemId, nextCartId := 1, 1;
    }

    /** `add_to_inventory_view`, with `created` the quantity of a new ledger row. */
    method AddToInventory(u: UserId, id: ItemId, created: nat) returns (status: Status)
      requires Valid()
      modifies this`items, this`ledger
      ensures Valid()
      ensures (status, CurrentStock()) == Borrowed(old(CurrentStock()), u, id, created)
    {
      if id !in items {
        return NotFound;
      }
      var item := items[id];
      if item.inStock <= 0 {
        return BadRequest;
      }
      var key := (u, id);
      if key in ledger {
        ledger := ledger[key := ledger[key] + 1];
      } else {
        ledger := ledger[key := created];
      }
      item := item.(inStock := item.inStock - 1);
      items := items[id := item];
      status := NoContent;
    }

    /** `remove_from_inventory_view`. */
    method RemoveFromInventory(u: UserId, id: ItemId) returns (status: Status)
      requires Valid()
      modifies this`items, this`ledger
      ensures Valid()
      ensures (status, CurrentStock()) == Returned(old(CurrentStock()), u, id)
    {
      if id !in items {
        return NotFound;
      }
      var item := items[id];
      var key := (u, id);
      if key !in ledger {
        return NotFound;
      }
      if ledger[key] > 1 {
        ledger := ledger[key := ledger[key] - 1];
      } else {
        ledger := ledger - {key};
      }
      item := item.(inStock := item.inStock + 1);
      items := items[id := item];
      status := NoContent;
    }

    /** `CartViewSet.get_object`: `Cart.objects.get_or_create(user=u)`, which
        raises when the user already owns two carts. */
    method GetCart(u: UserId) returns (status: Status, cart: CartId)
      requires Valid()
      modifies this`carts, this`nextCartId
      ensures Valid()
      ensures status == ServerError <==> |CartsOf(old(carts), u)| >= 2
      ensures status != ServerError ==> status == Ok && CartsOf(carts, u) == {cart}
      ensures status == ServerError || CartsOf(old(carts), u) != {} ==>
        carts == old(carts) && nextCartId == old(nextCartId)
      ensures status == Ok && CartsOf(old(carts), u) == {} ==>
        cart == old(nextCartId) && cart !in old(carts) &&
        carts == old(carts)[cart := u] && nextCartId == cart + 1
      ensures OneCartPerUser(old(carts)) ==> status == Ok && OneCartPerUser(carts)
      ensures lines == old(lines) && items == old(items) && ledger == old(ledger)
    {
      if OneCartPerUser(carts) {
        AtMostOneCart(carts, u);
      }
      var mine := CartsOf(carts, u);
      if |mine| >= 2 {
        return ServerError, 0;
      }
      if mine == {} {
        cart := nextCartId;
        carts := carts[cart := u];
        nextCartId := nextCartId + 1;
        assert CartsOf(carts, u) == {cart};
      } else {
        cart :| cart in mine;
        assert mine - {cart} == {} by {
          assert |mine - {cart}| == |mine| - 1;
        }
      }
      status := Ok;
    }

    /** `CartViewSet.remove_item`: the cart is fetched (or created) first,
        then `item_id` is checked, then the (cart, item) rows are deleted. */
    method RemoveItem(u: UserId, itemId: Option<nat>) returns (status: Status, cart: CartId)
      requires Valid()
      modifies this`carts, this`nextCartId, this`lines
      ensures Valid()
      ensures |CartsOf(old(carts), u)| >= 2 ==>
        status == ServerError && carts == old(carts) && nextCartId == old(nextCartId) && lines == old(lines)
      ensures |CartsOf(old(carts), u)| < 2 ==>
        && CartsOf(carts, u) == {cart}
        && (CartsOf(old(carts), u) == {} ==>
              cart == old(nextCartId) && carts == old(carts)[cart := u] && nextCartId == cart + 1)
        && (CartsOf(old(carts), u) != {} ==> carts == old(carts) && nextCartId == old(nextCartId))
      ensures |CartsOf(old(carts), u)| < 2 && (itemId.None? || itemId.value == 0) ==>
        status == BadRequest && lines == old(lines)
      ensures |CartsOf(old(carts), u)| < 2 && itemId.Some? && itemId.value != 0 &&
              IndexOf(old(lines), cart, itemId.value).None? ==>
        status == NotFound && lines == old(lines)
      ensures |CartsOf(old(carts), u)| < 2 && itemId.Some? && itemId.value != 0 &&
              IndexOf(old(lines), cart, itemId.value).Some? ==>
        && status == Ok
        && lines == Filter(old(lines), OtherThan(cart, itemId.value))
        && |lines| == |old(lines)| - 1
      ensures items == old(items) && ledger == old(ledger)
    {
      status, cart := GetCart(u);
      if status == ServerError {
        return;
      }
      if itemId.None? || itemId.value == 0 {
        return BadRequest, cart;
      }
      var i := itemId.value;
      var before := lines;
      FilterKeepsUnique(before, OtherThan(cart, i));
      FilterKeepsAll(before, OtherThan(cart, i));
      if IndexOf(before, cart, i).Some? {
        RemoveOneLine(before, cart, i);
      }
      lines := Filter(before, OtherThan(cart, i));
      assert forall k :: 0 <= k < |lines| ==> lines[k] in before;
      var deleted := |before| - |lines|;
      if deleted == 0 {
        return NotFound, cart;
      }
      status := Ok;
    }

    /** `CartViewSet.clear`: every line of the user's cart is deleted. */
    method Clear(u: UserId) returns (status: Status, cart: CartId)
      requires Valid()
      modifies this`carts, this`nextCartId, this`lines
      ensures Valid()
      ensures |CartsOf(old(carts), u)| >= 2 ==>
        status == ServerError && carts == old(carts) && nextCartId == old(nextCartId) && lines == old(lines)
      ensures |CartsOf(old(carts), u)| < 2 ==>
        && status == Ok
        && CartsOf(carts, u) == {cart}
        && (CartsOf(old(carts), u) == {} ==>
              cart == old(nextCartId) && carts == old(carts)[cart := u] && nextCartId == cart + 1)
        && (CartsOf(old(carts), u) != {} ==> carts == old(carts) && nextCartId == old(nextCartId))
        && lines == Filter(old(lines), NotInCart(cart))
        && (forall x :: x in lines ==> x.cart != cart)
        && (forall x :: x in old(lines) && x.cart != cart ==> x in lines)
      ensures items == old(items) && ledger == old(ledger)
    {
      status, cart := GetCart(u);
      if status == ServerError {
        return;
      }
      var before := lines;
      FilterKeepsUnique(before, NotInCart(cart));
      lines := Filter(before, NotInCart(cart));
      assert forall k :: 0 <= k < |lines| ==> lines[k] in before;
    }

    /** `ItemViewSet.destroy`: a soft delete with no guard. */
    method Destroy(requester: User, id: ItemId) returns (status: Status)
      requires Valid()
      modifies this`items
      ensures Valid()
      ensures id !in old(items) ==> status == NotFound && items == old(items)
      ensures id in old(items) ==>
        status == NoContent && items == old(items)[id := SoftDeleted(old(items)[id], requester)]
      ensures items.Keys == old(items).Keys
    {
      if id !in items {
        return NotFound;
      }
      var item := items[id];
      item := item.(isActive := false);
      if requester.isAuthenticated {
        item := item.(updatedBy := Some(requester.id));
      }
      items := items[id := item];
      status := NoContent;
    }

    /** `delete_item`: staff only; on POST a soft delete, refused while
        stock remains unless forced; on GET only the confirmation page. An
        HTMX request gets a 400 for the refusal and an empty 200 for the
        delete; a plain one gets the confirmation page with the error, and a
        redirect after the delete. */
    method DeleteItem(requester: User, id: ItemId, isPost: bool, isHtmx: bool, force: Option<string>)
      returns (status: Status)
      requires Valid()
      modifies this`items
      ensures Valid()
      ensures items.Keys == old(items).Keys
      ensures !MayDelete(requester) ==> status == Forbidden && items == old(items)
      ensures MayDelete(requester) && id !in old(items) ==> status == NotFound && items == old(items)
      ensures MayDelete(requester) && id in old(items) && !isPost ==> status == Ok && items == old(items)
      ensures MayDelete(requester) && id in old(items) && isPost &&
              old(items)[id].inStock > 0 && !IsForce(force) ==>
        status == (if isHtmx then BadRequest else Blocked) && items == old(items)
      ensures MayDelete(requester) && id in old(items) && isPost &&
              (old(items)[id].inStock <= 0 || IsForce(force)) ==>
        status == (if isHtmx then Ok else Redirect) &&
        items == old(items)[id := SoftDeleted(old(items)[id], requester)]
    {
      if !MayDelete(requester) {
        return Forbidden;
      }
      if id !in items {
        return NotFound;
      }
      if !isPost {
        return Ok;
      }
      var forced := IsForce(force);
      var item := items[id];
      if item.inStock != 0 && item.inStock > 0 && !forced {
        return if isHtmx then BadRequest else Blocked;
      }
      item := item.(isActive := false);
      if requester.isAuthenticated {
        item := item.(updatedBy := Some(requester.id));
      }
      items := items[id := item];
      status := if isHtmx then Ok else Redirect;
    }
  }
}
