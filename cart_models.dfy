/** The cart schema: a Cart belongs to a user, a CartItem joins a cart and a
    catalog item with a quantity. The table of cart lines is a sequence of
    rows; the schema's constraints are predicates over it, and the ORM's
    cascading deletes are functions on it. */
module CartModels {
  import opened Common

  /** One cart_items row. `quantity` is a PositiveIntegerField, which admits 0. */
  datatype CartItem = CartItem(cart: CartId, item: ItemId, quantity: nat)

  /** The quantity a line gets when the ORM creates it without one. */
  const DefaultLineQuantity: nat := 1

  predicate SameLine(x: CartItem, c: CartId, i: ItemId) {
    x.cart == c && x.item == i
  }

  /** `unique_together = ("cart", "item")`. */
  predicate UniqueTogether(lines: seq<CartItem>) {
    forall a, b :: 0 <= a < b < |lines| ==> !SameLine(lines[a], lines[b].cart, lines[b].item)
  }

  /** Every line's cart exists (the cart foreign key). */
  predicate LinesReferenceCarts(carts: map<CartId, UserId>, lines: seq<CartItem>) {
    forall k :: 0 <= k < |lines| ==> lines[k].cart in carts
  }

  /** A state the schema admits. Cart.user is a plain foreign key: nothing
      here limits a user to one cart. */
  predicate WellFormed(carts: map<CartId, UserId>, lines: seq<CartItem>) {
    UniqueTogether(lines) && LinesReferenceCarts(carts, lines)
  }

  /** The carts that belong to user `u`. */
  function CartsOf(carts: map<CartId, UserId>, u: UserId): (r: set<CartId>)
    ensures forall c :: c in r <==> c in carts && carts[c] == u
  {
    set c | c in carts && carts[c] == u
  }

  /** What get-or-create would preserve: no user owns two carts. */
  predicate OneCartPerUser(carts: map<CartId, UserId>) {
    forall a, b :: a in carts && b in carts && carts[a] == carts[b] ==> a == b
  }

  /** Without two carts for one user, get-or-create finds at most one. */
  lemma AtMostOneCart(carts: map<CartId, UserId>, u: UserId)
    requires OneCartPerUser(carts)
    ensures |CartsOf(carts, u)| <= 1
  {
    var mine := CartsOf(carts, u);
    if mine != {} {
      var a :| a in mine;
      forall b | b in mine ensures b == a {
        assert carts[a] == carts[b];
      }
      assert mine == {a};
    }
  }

  /** The position of the (c, i) line, if there is one: the first such row. */
  function IndexOf(lines: seq<CartItem>, c: CartId, i: ItemId): (r: Option<nat>)
    ensures r.Some? ==> r.value < |lines| && SameLine(lines[r.value], c, i)
    ensures r.Some? ==> forall k :: 0 <= k < r.value ==> !SameLine(lines[k], c, i)
    ensures r.None? <==> forall k :: 0 <= k < |lines| ==> !SameLine(lines[k], c, i)
  {
    if lines == [] then None
    else if SameLine(lines[0], c, i) then Some(0)
    else
      assert forall k :: 1 <= k < |lines| ==> lines[k] == lines[1..][k - 1];
      match IndexOf(lines[1..], c, i)
      case None => None
      case Some(k) => Some(k + 1)
  }

  /** IndexOf finds the first matching row. */
  lemma FirstMatch(lines: seq<CartItem>, c: CartId, i: ItemId, k: nat)
    requires k < |lines| && SameLine(lines[k], c, i)
    requires forall j :: 0 <= j < k ==> !SameLine(lines[j], c, i)
    ensures IndexOf(lines, c, i) == Some(k)
  {
    var j := IndexOf(lines, c, i).value;
    assert !(j < k) && !(k < j);
  }

  /** The quantity of the (c, i) line, 0 when the cart has no such line. */
  function Quantity(lines: seq<CartItem>, c: CartId, i: ItemId): nat {
    match IndexOf(lines, c, i)
    case Some(k) => lines[k].quantity
    case None => 0
  }

  /** Under the uniqueness constraint a matching row is THE matching row. */
  lemma UniqueIndex(lines: seq<CartItem>, c: CartId, i: ItemId, k: nat)
    requires UniqueTogether(lines)
    requires k < |lines| && SameLine(lines[k], c, i)
    ensures IndexOf(lines, c, i) == Some(k)
  {
    var j := IndexOf(lines, c, i).value;
    assert !(j < k) && !(k < j);
  }

  /** Keeping a subset of the rows keeps the constraint. */
  lemma {:induction false} FilterKeepsUnique(lines: seq<CartItem>, keep: CartItem -> bool)
    ensures UniqueTogether(lines) ==> UniqueTogether(Filter(lines, keep))
  {
    if lines != [] && UniqueTogether(lines) {
      var tail := lines[1..];
      assert UniqueTogether(tail) by {
        assert forall k :: 0 <= k < |tail| ==> tail[k] == lines[k + 1];
      }
      FilterKeepsUnique(tail, keep);
      var ft := Filter(tail, keep);
      if keep(lines[0]) {
        var r := [lines[0]] + ft;
        assert forall y :: y in ft ==> !SameLine(lines[0], y.cart, y.item) by {
          forall y | y in ft ensures !SameLine(lines[0], y.cart, y.item) {
            var k :| 0 <= k < |tail| && tail[k] == y;
            assert lines[k + 1] == y;
          }
        }
        forall a, b | 0 <= a < b < |r| ensures !SameLine(r[a], r[b].cart, r[b].item) {
          if a == 0 {
            assert r[b] in ft;
          } else {
            assert r[a] == ft[a - 1] && r[b] == ft[b - 1];
          }
        }
      }
    }
  }

  function OtherThan(c: CartId, i: ItemId): CartItem -> bool {
    (x: CartItem) => !SameLine(x, c, i)
  }

  function NotInCart(c: CartId): CartItem -> bool {
    (x: CartItem) => x.cart != c
  }

  function NotInCarts(cs: set<CartId>): CartItem -> bool {
    (x: CartItem) => x.cart !in cs
  }

  function NotForItem(i: ItemId): CartItem -> bool {
    (x: CartItem) => x.item != i
  }

  /** Removing the one row at the position of the (c, i) line is the same as
      deleting every (c, i) row, because there is only one. */
  lemma {:induction false} RemoveAtIsFilter(lines: seq<CartItem>, c: CartId, i: ItemId)
    requires UniqueTogether(lines)
    requires IndexOf(lines, c, i).Some?
    ensures var k := IndexOf(lines, c, i).value;
      lines[..k] + lines[k + 1..] == Filter(lines, OtherThan(c, i))
  {
    var k := IndexOf(lines, c, i).value;
    var tail := lines[1..];
    assert UniqueTogether(tail) by {
      assert forall j :: 0 <= j < |tail| ==> tail[j] == lines[j + 1];
    }
    if k == 0 {
      assert forall j :: 0 <= j < |tail| ==> OtherThan(c, i)(tail[j]) by {
        forall j | 0 <= j < |tail| ensures OtherThan(c, i)(tail[j]) {
          assert tail[j] == lines[j + 1];
        }
      }
      FilterKeepsAll(tail, OtherThan(c, i));
      assert Filter(lines, OtherThan(c, i)) == Filter(tail, OtherThan(c, i)) == tail;
    } else {
      assert OtherThan(c, i)(lines[0]);
      assert Filter(lines, OtherThan(c, i)) == [lines[0]] + Filter(tail, OtherThan(c, i));
      assert tail[k - 1] == lines[k];
      UniqueIndex(tail, c, i, k - 1);
      RemoveAtIsFilter(tail, c, i);
      assert lines[..k] == [lines[0]] + tail[..k - 1];
      assert lines[k + 1..] == tail[k..];
    }
  }

  /** Deleting the (c, i) line of a well-formed table removes exactly one row. */
  lemma RemoveOneLine(lines: seq<CartItem>, c: CartId, i: ItemId)
    requires UniqueTogether(lines)
    requires IndexOf(lines, c, i).Some?
    ensures |Filter(lines, OtherThan(c, i))| == |lines| - 1
  {
    RemoveAtIsFilter(lines, c, i);
  }

  /** Deleting a cart: `on_delete=CASCADE` on CartItem.cart removes its lines. */
  function DeleteCart(carts: map<CartId, UserId>, lines: seq<CartItem>, c: CartId)
    : (r: (map<CartId, UserId>, seq<CartItem>))
    ensures r.0.Keys == carts.Keys - {c}
    ensures forall d :: d in r.0 ==> r.0[d] == carts[d]
    ensures forall x :: x in r.1 <==> x in lines && x.cart != c
    ensures WellFormed(carts, lines) ==> WellFormed(r.0, r.1)
  {
    var kept := Filter(lines, NotInCart(c));
    FilterKeepsUnique(lines, NotInCart(c));
    assert WellFormed(carts, lines) ==> LinesReferenceCarts(carts - {c}, kept) by {
      if WellFormed(carts, lines) {
        forall k | 0 <= k < |kept| ensures kept[k].cart in carts - {c} {
          assert kept[k] in kept;
          var j :| 0 <= j < |lines| && lines[j] == kept[k];
        }
      }
    }
    (carts - {c}, kept)
  }

  /** Deleting a catalog item: `on_delete=CASCADE` on CartItem.item removes
      every line that refers to it, in every cart. */
  function DeleteItem(lines: seq<CartItem>, i: ItemId): (r: seq<CartItem>)
    ensures forall x :: x in r <==> x in lines && x.item != i
    ensures UniqueTogether(lines) ==> UniqueTogether(r)
  {
    FilterKeepsUnique(lines, NotForItem(i));
    Filter(lines, NotForItem(i))
  }

  /** Deleting a user: `on_delete=CASCADE` on Cart.user removes the user's
      carts, which in turn removes their lines. */
  function DeleteUser(carts: map<CartId, UserId>, lines: seq<CartItem>, u: UserId)
    : (r: (map<CartId, UserId>, seq<CartItem>))
    ensures CartsOf(r.0, u) == {}
    ensures forall d :: d in r.0 <==> d in carts && carts[d] != u
    ensures forall d :: d in r.0 ==> r.0[d] == carts[d]
    ensures forall x :: x in r.1 <==> x in lines && x.cart !in CartsOf(carts, u)
    ensures WellFormed(carts, lines) ==> WellFormed(r.0, r.1)
  {
    var mine := CartsOf(carts, u);
    var kept := Filter(lines, NotInCarts(mine));
    FilterKeepsUnique(lines, NotInCarts(mine));
    assert WellFormed(carts, lines) ==> LinesReferenceCarts(carts - mine, kept) by {
      if WellFormed(carts, lines) {
        forall k | 0 <= k < |kept| ensures kept[k].cart in carts - mine {
          assert kept[k] in kept;
          var j :| 0 <= j < |lines| && lines[j] == kept[k];
        }
      }
    }
    (carts - mine, kept)
  }
}
