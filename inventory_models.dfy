/** The stock ledger schema: an InventoryItem row belongs to a catalog item
    and records a name, a location, a quantity and a reorder level, with
    audit fields. The model's default ordering is by name. */
module InventoryModels {
  import opened Common

  datatype InventoryItem = InventoryItem(
    item: ItemId,
    name: string,
    location: string,
    quantity: nat,
    reorderLevel: nat,
    createdAt: int,
    updatedAt: int,
    createdBy: Option<UserId>,
    updatedBy: Option<UserId>)

  const DefaultStockQuantity: nat := 0
  const DefaultReorderLevel: nat := 10

  /** A row created with only its required fields, at time `now`: every
      other field takes its declared default. */
  function NewInventoryItem(item: ItemId, name: string, now: int): (r: InventoryItem)
    ensures r.item == item && r.name == name
    ensures r.location == "" && r.quantity == 0 && r.reorderLevel == 10
    ensures r.createdAt == now && r.updatedAt == now
    ensures r.createdBy.None? && r.updatedBy.None?
  {
    InventoryItem(item, name, "", DefaultStockQuantity, DefaultReorderLevel, now, now, None, None)
  }

  /** `__str__`: "name (location)", or the bare name when there is no location. */
  function Display(r: InventoryItem): (s: string)
    ensures r.name <= s
    ensures s == r.name <==> r.location == ""
    ensures r.location != "" ==> s[|r.name|..] == " (" + r.location + ")"
  {
    if r.location != "" then r.name + " (" + r.location + ")" else r.name
  }

  /** Deleting a catalog item: `on_delete=CASCADE` removes the rows that
      refer to it. */
  function DeleteItemRows(rows: seq<InventoryItem>, i: ItemId): (r: seq<InventoryItem>)
    ensures forall x :: x in r <==> x in rows && x.item != i
    ensures |r| <= |rows|
  {
    Filter(rows, (x: InventoryItem) => x.item != i)
  }

  /** An audit reference after its user is deleted: `on_delete=SET_NULL`. */
  function Unlinked(who: Option<UserId>, u: UserId): Option<UserId> {
    if who == Some(u) then None else who
  }

  /** Deleting user `u`: every row survives, and the audit fields that
      named `u` become null. */
  function DeleteUserAudit(rows: seq<InventoryItem>, u: UserId): (r: seq<InventoryItem>)
    ensures |r| == |rows|
    ensures forall k :: 0 <= k < |r| ==>
      r[k] == rows[k].(createdBy := Unlinked(rows[k].createdBy, u), updatedBy := Unlinked(rows[k].updatedBy, u))
    ensures forall k :: 0 <= k < |r| ==> r[k].createdBy != Some(u) && r[k].updatedBy != Some(u)
  {
    seq(|rows|, k requires 0 <= k < |rows| =>
      rows[k].(createdBy := Unlinked(rows[k].createdBy, u), updatedBy := Unlinked(rows[k].updatedBy, u)))
  }

  /** String order by code point, the order Python and the database's binary
      collation give names. */
  predicate NameLe(a: string, b: string) {
    a == [] || (b != [] && (a[0] < b[0] || (a[0] == b[0] && NameLe(a[1..], b[1..]))))
  }

  lemma {:induction false} NameLeTotal(a: string, b: string)
    ensures NameLe(a, b) || NameLe(b, a)
  {
    if a != [] && b != [] && a[0] == b[0] {
      NameLeTotal(a[1..], b[1..]);
    }
  }

  /** `Meta.ordering = ["name"]`. */
  predicate OrderedByName(rows: seq<InventoryItem>) {
    forall k :: 0 < k < |rows| ==> NameLe(rows[k - 1].name, rows[k].name)
  }

  function InsertByName(x: InventoryItem, rows: seq<InventoryItem>): (r: seq<InventoryItem>)
    requires OrderedByName(rows)
    ensures OrderedByName(r)
    ensures multiset(r) == multiset(rows) + multiset{x}
    ensures |r| == |rows| + 1
    ensures r[0] == x || (rows != [] && r[0] == rows[0])
  {
    if rows == [] then [x]
    else if NameLe(x.name, rows[0].name) then [x] + rows
    else
      NameLeTotal(x.name, rows[0].name);
      var tail := rows[1..];
      assert OrderedByName(tail) by {
        assert forall k :: 0 <= k < |tail| ==> tail[k] == rows[k + 1];
      }
      var t := InsertByName(x, tail);
      assert rows == [rows[0]] + tail;
      assert t[0] == x || t[0] == rows[1];
      var r := [rows[0]] + t;
      assert forall k :: 0 < k < |r| ==> r[k] == t[k - 1];
      r
  }

  /** The rows in the model's default order: sorted by name, with the same
      multiset of rows. */
  function OrderByName(rows: seq<InventoryItem>): (r: seq<InventoryItem>)
    ensures OrderedByName(r)
    ensures multiset(r) == multiset(rows)
    ensures |r| == |rows|
  {
    if rows == [] then []
    else
      assert rows == [rows[0]] + rows[1..];
      InsertByName(rows[0], OrderByName(rows[1..]))
  }
}
