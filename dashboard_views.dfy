/** The dashboard: the metric boxes counted over the stock ledger, the
    superuser test that guards user creation, and the mapping from the role
    chosen on the "add user" form to the account's flags. */
module DashboardViews {
  import opened Common
  import opened InventoryModels
  import opened InventoryViews

  /** The low-stock threshold when the setting is absent. */
  const DefaultLowStockThreshold: int := 10

  /** Seven days, in the seconds of the model's clock. */
  const Week: int := 7 * 24 * 60 * 60

  /** The metrics dictionary. The two placeholders have no value in the
      program; they are always None. */
  datatype Metrics = Metrics(
    totalItems: nat,
    lowStock: nat,
    outOfStock: nat,
    newItems7d: nat,
    inventoryValue: Option<nat>,
    vendors: Option<nat>)

  /** `quantity__gt=0, quantity__lt=threshold`: strict on both sides. */
  function IsLowStock(threshold: int): InventoryItem -> bool {
    (x: InventoryItem) => 0 < x.quantity < threshold
  }

  /** `quantity__lte=0`. */
  function IsOutOfStock(): InventoryItem -> bool {
    (x: InventoryItem) => x.quantity <= 0
  }

  /** `created_at__gte=week_ago`. */
  function IsNewSince(weekAgo: int): InventoryItem -> bool {
    (x: InventoryItem) => x.createdAt >= weekAgo
  }

  /** The threshold the settings give: the configured one, else 10. */
  function Threshold(setting: Option<int>): (t: int)
    ensures setting.None? ==> t == DefaultLowStockThreshold
    ensures setting.Some? ==> t == setting.value
  {
    if setting.Some? then setting.value else DefaultLowStockThreshold
  }

  /** `_metrics_dict` over the rows of the ledger, at time `now`. */
  function MetricsDict(rows: seq<InventoryItem>, setting: Option<int>, now: int): (m: Metrics)
    ensures m.totalItems == |rows|
    ensures m.lowStock + m.outOfStock <= m.totalItems
    ensures m.newItems7d <= m.totalItems
    ensures m.inventoryValue.None? && m.vendors.None?
    ensures rows == [] ==> m.lowStock == 0 && m.outOfStock == 0 && m.newItems7d == 0
  {
    var threshold := Threshold(setting);
    var weekAgo := now - Week;
    FilterDisjointSizes(rows, IsLowStock(threshold), IsOutOfStock());
    Metrics(
      |rows|,
      |Filter(rows, IsLowStock(threshold))|,
      |Filter(rows, IsOutOfStock())|,
      |Filter(rows, IsNewSince(weekAgo))|,
      None,
      None)
  }

  /** A low-stock box counts a row exactly when its quantity is strictly
      between 0 and the threshold: with a threshold of 1 or less it is
      always 0. */
  lemma NoLowStockBelowTwo(rows: seq<InventoryItem>, setting: Option<int>, now: int)
    requires Threshold(setting) <= 1
    ensures MetricsDict(rows, setting, now).lowStock == 0
  {
    FilterNone(rows, IsLowStock(Threshold(setting)));
  }

  /** Adding one row `x` to the ledger adds one to the total, and one to
      each box whose condition `x` meets (quantity strictly between 0 and the
      threshold; quantity 0 or less; created within the last seven days), and
      nothing to the others. With the empty ledger's zeros this fixes every
      count. */
  lemma AppendRow(rows: seq<InventoryItem>, x: InventoryItem, setting: Option<int>, now: int)
    ensures var before := MetricsDict(rows, setting, now);
      var after := MetricsDict(rows + [x], setting, now);
      && after.totalItems == before.totalItems + 1
      && after.lowStock == before.lowStock + (if 0 < x.quantity < Threshold(setting) then 1 else 0)
      && after.outOfStock == before.outOfStock + (if x.quantity <= 0 then 1 else 0)
      && after.newItems7d == before.newItems7d + (if x.createdAt >= now - Week then 1 else 0)
  {
    FilterAppend(rows, [x], IsLowStock(Threshold(setting)));
    FilterAppend(rows, [x], IsOutOfStock());
    FilterAppend(rows, [x], IsNewSince(now - Week));
  }

  /** A row whose quantity equals the threshold is not low stock, whatever
      the others hold: both bounds are strict. */
  lemma ThresholdRowIsNotLow(rows: seq<InventoryItem>, x: InventoryItem, setting: Option<int>, now: int)
    requires x.quantity == Threshold(setting)
    ensures MetricsDict(rows + [x], setting, now).lowStock == MetricsDict(rows, setting, now).lowStock
  {
    AppendRow(rows, x, setting, now);
  }

  /** A row created now with its defaults (quantity 0) adds one to the
      total, to the out-of-stock count and to the new-items count, and
      leaves the low-stock count as it was. */
  lemma NewRowIsOutOfStock(rows: seq<InventoryItem>, item: ItemId, name: string,
                           setting: Option<int>, now: int)
    ensures var before := MetricsDict(rows, setting, now);
      var after := MetricsDict(rows + [NewInventoryItem(item, name, now)], setting, now);
      && after.totalItems == before.totalItems + 1
      && after.outOfStock == before.outOfStock + 1
      && after.newItems7d == before.newItems7d + 1
      && after.lowStock == before.lowStock
  {
    AppendRow(rows, NewInventoryItem(item, name, now), setting, now);
  }

  /** `is_superuser`, the test `add_user` is guarded by. */
  predicate IsSuperuser(u: User) {
    u.isAuthenticated && u.isSuperuser
  }

  /** The roles of the "add user" form. */
  const AdminRole := "ADMIN"
  const ManagerRole := "MANAGER"

  /** The (is_superuser, is_staff) flags a role gives: ADMIN both, MANAGER
      staff only, any other role (the form admits only STAFF) neither. */
  function RoleFlags(role: string): (r: (bool, bool))
    ensures r.0 <==> role == AdminRole
    ensures r.1 <==> role == AdminRole || role == ManagerRole
    ensures r.0 ==> r.1
  {
    if role == AdminRole then (true, true)
    else if role == ManagerRole then (false, true)
    else (false, false)
  }

  /** `add_user`: only a superuser gets past the guard (anyone else is
      redirected to the login page); a valid POST creates account `newId`
      with the role's flags and redirects; anything else renders the form. */
  function AddUser(requester: User, isPost: bool, formValid: bool, newId: UserId, role: string)
    : (r: (Status, Option<User>))
    ensures r.1.Some? <==> IsSuperuser(requester) && isPost && formValid
    ensures r.1.Some? ==>
      && r.0 == Redirect
      && r.1.value.id == newId && r.1.value.isAuthenticated
      && (r.1.value.isSuperuser, r.1.value.isStaff) == RoleFlags(role)
    ensures !IsSuperuser(requester) ==> r.0 == Redirect
    ensures IsSuperuser(requester) && !(isPost && formValid) ==> r.0 == Ok
  {
    if !IsSuperuser(requester) then (Redirect, None)
    else if isPost && formValid then
      var flags := RoleFlags(role);
      (Redirect, Some(User(newId, true, flags.1, flags.0)))
    else (Ok, None)
  }

  /** What each role may then do: an ADMIN account may create users and
      delete items, a MANAGER account may delete items only, a STAFF
      account neither. */
  lemma RolePermissions(requester: User, newId: UserId, role: string)
    requires IsSuperuser(requester)
    ensures var u := AddUser(requester, true, true, newId, role).1.value;
      && (IsSuperuser(u) <==> role == AdminRole)
      && (MayDelete(u) <==> role == AdminRole || role == ManagerRole)
  {
  }
}
