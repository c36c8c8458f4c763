/** The routed cart API: `add` upserts a line by `max(1, quantity)`;
    `remove` deletes one line or answers 404. Carts are looked up by primary
    key. */
module CartViews {
  import opened Common
  import opened CartModels

  /** The `quantity` field of the request: absent, a value `int()` accepts,
      or one it rejects (that ValueError is not caught). */
  datatype QuantityArg = Absent | Given(n: int) | Malformed

  /** Python `max(1, q)`. */
  function AtLeastOne(q: int): (r: nat)
    ensures r >= 1 && r >= q
    ensures r == q || r == 1
  {
    if q > 1 then q else 1
  }

  /** The line table after a successful add of `q` to the (c, i) line. */
  function AddedLine(lines: seq<CartItem>, c: CartId, i: ItemId, q: int): (r: seq<CartItem>)
    ensures UniqueTogether(lines) ==> UniqueTogether(r)
    ensures Quantity(r, c, i) == Quantity(lines, c, i) + AtLeastOne(q)
    ensures IndexOf(lines, c, i).Some? ==> |r| == |lines| && IndexOf(r, c, i) == IndexOf(lines, c, i)
    ensures IndexOf(lines, c, i).None? ==> |r| == |lines| + 1 && IndexOf(r, c, i) == Some(|lines|)
    ensures forall x :: x in lines && !SameLine(x, c, i) ==> x in r
    ensures forall x :: x in r && !SameLine(x, c, i) ==> x in lines
  {
    match IndexOf(lines, c, i)
    case Some(k) =>
      var r := lines[k := lines[k].(quantity := lines[k].quantity + AtLeastOne(q))];
      assert forall j :: 0 <= j < k ==> r[j] == lines[j];
      FirstMatch(r, c, i, k);
      assert UniqueTogether(lines) ==> UniqueTogether(r) by {
        if UniqueTogether(lines) {
          forall a, b | 0 <= a < b < |r| ensures !SameLine(r[a], r[b].cart, r[b].item) {
            assert SameLine(r[a], r[b].cart, r[b].item) ==> SameLine(lines[a], lines[b].cart, lines[b].item);
          }
        }
      }
      assert forall x :: x in lines && !SameLine(x, c, i) ==> x in r by {
        forall x | x in lines && !SameLine(x, c, i) ensures x in r {
          var j :| 0 <= j < |lines| && lines[j] == x;
          assert r[j] == x;
        }
      }
      r
    case None =>
      var r := lines + [CartItem(c, i, AtLeastOne(q))];
      assert forall j :: 0 <= j < |lines| ==> r[j] == lines[j];
      FirstMatch(r, c, i, |lines|);
      r
  }

  /** Adding 1 and then 3 of an item the cart did not hold leaves one line
      with quantity 4. */
  lemma AddOneThenThree(lines: seq<CartItem>, c: CartId, i: ItemId)
    requires UniqueTogether(lines)
    requires IndexOf(lines, c, i).None?
    ensures var r := AddedLine(AddedLine(lines, c, i, 1), c, i, 3);
      UniqueTogether(r) && |r| == |lines| + 1 && Quantity(r, c, i) == 4
  {
  }

  /** After any add, the line holds at least one unit. */
  lemma AddedLineIsPositive(lines: seq<CartItem>, c: CartId, i: ItemId, q: int)
    ensures var r := AddedLine(lines, c, i, q);
      IndexOf(r, c, i).Some? && r[IndexOf(r, c, i).value].quantity >= 1
  {
  }

  class CartApi {
    /** Cart table: primary key to owner. */
    var carts: map<CartId, UserId>
    /** CartItem table. */
    var lines: seq<CartItem>
    /** Primary keys of the catalog items. */
    var catalog: set<ItemId>

    ghost predicate Valid()
      reads this
    {
      && WellFormed(carts, lines)
      && (forall k :: 0 <= k < |lines| ==> lines[k].item in catalog)
    }

    constructor (carts: map<CartId, UserId>, catalog: set<ItemId>)
      ensures Valid()
      ensures this.carts == carts && this.catalog == catalog && lines == []
    {
      this.carts := carts;
      this.catalog := catalog;
      lines := [];
    }

    /** POST /cart/{pk}/add/ with `item_id` and optional `quantity`. */
    method Add(pk: CartId, itemId: Option<ItemId>, quantity: QuantityArg) returns (status: Status)
      requires Valid()
      modifies this`lines
      ensures Valid()
      ensures pk !in carts ==> status == NotFound && lines == old(lines)
      ensures pk in carts && quantity.Malformed? ==> status == ServerError && lines == old(lines)
      ensures pk in carts && !quantity.Malformed? && (itemId.None? || itemId.value !in catalog) ==>
        status == NotFound && lines == old(lines)
      ensures pk in carts && !quantity.Malformed? && itemId.Some? && itemId.value in catalog ==>
        status == Ok &&
        lines == AddedLine(old(lines), pk, itemId.value, if quantity.Given? then quantity.n else 1)
    {
      if pk !in carts {
        return NotFound;
      }
      var q: int;
      match quantity {
        case Absent => q := 1;
        case Given(n) => q := n;
        case Malformed => return ServerError;
      }
      if itemId.None? || itemId.value !in catalog {
        return NotFound;
      }
      var i := itemId.value;
      // get_or_create(cart=cart, item=item)
      var k: nat;
      var created: bool;
      var found := IndexOf(lines, pk, i);
      if found.Some? {
        k, created := found.value, false;
      } else {
        lines := lines + [CartItem(pk, i, DefaultLineQuantity)];
        k, created := |lines| - 1, true;
      }
      var row := lines[k];
      if !created {
        row := row.(quantity := row.quantity + AtLeastOne(q));
      } else {
        row := row.(quantity := AtLeastOne(q));
      }
      lines := lines[k := row];
      status := Ok;
      assert lines == AddedLine(old(lines), pk, i, q);
    }

    /** POST /cart/{pk}/remove/ with `item_id`. */
    method Remove(pk: CartId, itemId: Option<ItemId>) returns (status: Status)
      requires Valid()
      modifies this`lines
      ensures Valid()
      ensures pk !in carts || itemId.None? || IndexOf(old(lines), pk, itemId.value).None? ==>
        status == NotFound && lines == old(lines)
      ensures pk in carts && itemId.Some? && IndexOf(old(lines), pk, itemId.value).Some? ==>
        && status == Ok
        && lines == Filter(old(lines), OtherThan(pk, itemId.value))
        && |lines| == |old(lines)| - 1
    {
      if pk !in carts || itemId.None? {
        return NotFound;
      }
      var found := IndexOf(lines, pk, itemId.value);
      if found.None? {
        return NotFound;
      }
      var k := found.value;
      RemoveAtIsFilter(lines, pk, itemId.value);
      FilterKeepsUnique(lines, OtherThan(pk, itemId.value));
      lines := lines[..k] + lines[k + 1..];
      status := Ok;
    }
  }
}
