# Inventro store model

Inventro is a Django inventory application. This project models the part of it that holds
state and changes it:

- the **cart** schema and the two cart APIs: the routed `add` upsert and `remove`, plus the
  per-user `remove_item` and `clear` behind a get-or-create cart lookup;
- the **borrow ledger**: `add_to_inventory_view` and `remove_from_inventory_view` move one
  unit at a time between an item's `in_stock` and the user's ledger row;
- the **soft deletes** of an item: the guarded `delete_item` view and the unguarded
  `ItemViewSet.destroy`;
- the **listing helpers** `filter_items` and `get_pos_int_parameter`;
- the **dashboard** metrics over the stock ledger, the superuser test, and the role-to-flag
  mapping of `add_user`;
- the admin **item form**: it reads, validates and parses the form, then updates or creates
  the item;
- the **InventoryItem** schema: its defaults, its ordering by name and its display string.

Database tables become values. A table keyed by primary key is a `map`. The cart-line table
is a `seq` of rows, with the `(cart, item)` uniqueness constraint as a predicate over it.
Each query filter is `Common.Filter`, and each cascading delete is a function on the tables.

State that the views change in place lives in two classes:

- `CartViews.CartApi` holds the tables for the routed cart API.
- `InventoryViews.Store` holds the catalog, the ledger, the carts and the key counters.

Their methods are proved against pure functions of the old state. For example,
`Store.AddToInventory` is proved against `Borrowed`, and `ItemFormViews.ItemForm` against
`ItemFormResult`. The properties are then lemmas about those functions.

Modules follow the source files:

| module | file |
|---|---|
| `Common`, `Text` | shared values, Python string operations |
| `CartModels` | cart/models.py |
| `CartViews` | cart/views.py |
| `InventoryModels` | inventory/models.py |
| `InventoryViews` | inventro/inventory/views.py |
| `DashboardViews` | dashboard/views.py |
| `ItemFormViews` | inventro/dashboard/views.py |

Some inputs come from outside the modelled code. Each one is a parameter:

- Python's `int()` and `Decimal()` are partial functions `string -> Option<...>`.
- `timezone.now()` is the number `now`.
- The low-stock setting is an `Option<int>`.
- Whether `add_user`'s form is valid is a boolean.
- The quantity the ORM gives a new ledger row is `created`. The ledger's model,
  inventro/inventory/models.py, is not among the modelled files.

The `Item` model, products/models.py, is not among the modelled files either. `Common.Item` is a
record of the fields the views read and write. A newly created item is assumed to be active.

Where a reader might expect otherwise, the model follows the code:

- `Cart.user` is a plain foreign key, so a user can own two carts. Get-or-create then raises,
  which the model answers with `ServerError`.
- `CartItem.quantity` admits 0.
- The low-stock count is strict on both sides: `0 < quantity < threshold`.
- The valuation and vendor metrics are always `None`.
- A refused delete renders the confirmation page, or answers 400 to HTMX. It is not a
  "conflict" status.
- The item form can store a negative `in_stock`.

## Model

| member | source | states |
|---|---|---|
| Common.Filter | inventro/inventory/views.py:196-213 | a queryset filter keeps exactly the rows that satisfy the condition and never grows the table |
| Common.FilterMultiset | inventro/inventory/views.py:196-213 | a filter keeps every selected row as many times as it occurs and drops every other row |
| Common.FilterKeepsAll | inventro/inventory/views.py:76-85 | a filter removes nothing exactly when every row satisfies it, and then returns the table unchanged |
| Common.FilterAppend | dashboard/views.py:68-71 | filtering a table with a new row appended is filtering the old table, then the new row |
| Common.FilterNone | dashboard/views.py:69 | a filter that no row satisfies selects nothing |
| Common.FilterDisjointSizes | dashboard/views.py:69-70 | two filters that no row satisfies together count at most all rows |
| Common.Truthy | inventro/dashboard/views.py:37 | definition: Python truthiness of an optional string, present and non-empty, as in `if q:`, `if category:` and `not name` |
| Common.Get | inventro/dashboard/views.py:27-34 | definition: `d.get(k)` is present exactly when the key is in the request data, and then it is the key's value |
| Common.OrElse | inventro/dashboard/views.py:28 | definition: Python `a or b` on optional strings gives `a` when it is non-empty, else `b` |
| Common.OrEmpty | inventro/inventory/views.py:198 | definition: Python `a or ""` gives the value, or "" when it is absent |
| Text.IsSpace | inventro/inventory/views.py:198 | definition: the characters Python's `str.isspace()` accepts, the ones `str.strip()` removes |
| Text.LeadingSpace | inventro/inventory/views.py:198 | counts the whitespace run at the start of a string: every counted character is whitespace, the next one is not |
| Text.TrailingSpaceStart | inventro/inventory/views.py:198 | finds where the trailing whitespace run starts: everything after it is whitespace, the character before it is not |
| Text.Strip | inventro/inventory/views.py:198 | `str.strip()` is no longer than its input, neither starts nor ends with whitespace, and is empty exactly when the input is all whitespace |
| Text.StripIsInfix | inventro/inventory/views.py:198 | `str.strip()` is the slice of its input between a prefix and a suffix made only of whitespace, so it keeps the inner characters in order |
| Text.LowerChar | inventro/inventory/views.py:237 | lower-casing maps A-Z to a-z and leaves every other character alone |
| Text.Lower | inventro/inventory/views.py:237 | `str.lower()` keeps the length and lowers each character in place |
| Text.Contains | inventro/inventory/views.py:203 | definition: Python's `n in h`, `n` is a prefix of `h` or of one of its suffixes |
| Text.ContainsIgnoreCase | inventro/inventory/views.py:203 | definition: `icontains`, `Contains` on both strings lower-cased |
| Text.EqualsIgnoreCase | inventro/inventory/views.py:206 | definition: `iexact`, the two strings are equal once lower-cased |
| Text.ContainsAt | inventro/inventory/views.py:203 | a found substring occurs at some index of the haystack |
| Text.InfixContains | inventro/inventory/views.py:203 | a substring that occurs at any index of the haystack is found |
| Text.ContainsIff | inventro/inventory/views.py:203 | `n in h` holds exactly when `n` occurs at some index of `h` |
| CartModels.SameLine | cart/views.py:32 | definition: the `cart=…, item_id=…` lookup, a row of that cart for that item |
| CartModels.UniqueTogether | cart/models.py:50-51 | definition: no two rows of the line table share both their cart and their item |
| CartModels.OneCartPerUser | inventro/inventory/views.py:55-58 | definition: no user owns two carts, the state in which get-or-create cannot raise |
| CartModels.LinesReferenceCarts | cart/models.py:41-45 | definition: the `CartItem.cart` foreign key, every line's cart exists |
| CartModels.WellFormed | cart/models.py:41-51 | definition: a state the schema admits, the uniqueness constraint and the cart foreign key |
| CartModels.CartsOf | cart/models.py:15-19 | the carts of a user are exactly the carts whose user field is that user |
| CartModels.AtMostOneCart | inventro/inventory/views.py:55-58 | when no user owns two carts, a get-or-create lookup finds at most one cart |
| CartModels.IndexOf | cart/models.py:50-51 | finds the first row of the (cart, item) line, and finds none exactly when the table has no such row |
| CartModels.FirstMatch | cart/models.py:50-51 | the first row of the (cart, item) line is the one IndexOf finds |
| CartModels.UniqueIndex | cart/models.py:50-51 | under `unique_together`, any row of the (cart, item) line is the one IndexOf finds |
| CartModels.Quantity | cart/models.py:47 | definition: the quantity of the (cart, item) line, 0 when the cart has none |
| CartModels.FilterKeepsUnique | cart/models.py:50-51 | deleting rows never breaks the `(cart, item)` uniqueness constraint |
| CartModels.OtherThan | inventro/inventory/views.py:76-79 | definition: the rows `CartItem.objects.filter(cart=…, item_id=…).delete()` keeps, every row outside that line |
| CartModels.NotInCart | inventro/inventory/views.py:97 | definition: the rows `cart.cart_items.all().delete()` and the cart's CASCADE keep, every row of another cart |
| CartModels.NotInCarts | cart/models.py:15-19 | definition: the rows a user's CASCADE keeps, every row outside the deleted carts |
| CartModels.NotForItem | cart/models.py:46 | definition: the rows the item's CASCADE keeps, every row for another item |
| CartModels.RemoveAtIsFilter | cart/views.py:32-33 | deleting the one row found by the lookup is the same as deleting every row of that (cart, item) line |
| CartModels.RemoveOneLine | inventro/inventory/views.py:76-79 | in a table that respects the constraint, deleting the (cart, item) rows removes exactly one row when the line exists |
| CartModels.DeleteCart | cart/models.py:41-45 | deleting a cart removes it and exactly its lines, keeps every other cart and line, and keeps the schema's constraints |
| CartModels.DeleteItem | cart/models.py:46 | deleting an item removes exactly the lines that refer to it, in every cart, and keeps uniqueness |
| CartModels.DeleteUser | cart/models.py:15-19 | deleting a user removes exactly that user's carts and their lines, and keeps the schema's constraints |
| CartViews.AtLeastOne | cart/views.py:22-24 | `max(1, q)` is at least 1 and at least `q`, and is one of the two |
| CartViews.AddedLine | cart/views.py:20-25 | an add raises the line's quantity by `max(1, q)`: an existing line stays in place, a missing one is appended; uniqueness is kept and every other line is untouched |
| CartViews.AddOneThenThree | cart/views.py:20-25 | add(1) then add(3) of a new item leaves one line with quantity 4 |
| CartViews.AddedLineIsPositive | cart/views.py:20-25 | after any add, the line exists and holds at least one unit |
| CartViews.CartApi.Valid | cart/models.py:41-51 | definition: the class invariant, `WellFormed` lines whose `CartItem.item` foreign key names a catalog item |
| CartViews.CartApi.Add | cart/views.py:14-26 | unknown cart gives 404; a quantity `int()` rejects gives 500; unknown item gives 404, all with no change; otherwise the table becomes `AddedLine` of the old one |
| CartViews.CartApi.Remove | cart/views.py:28-34 | a missing cart, item id or line gives 404 with no change; otherwise exactly that one line is deleted |
| InventoryModels.NewInventoryItem | inventory/models.py:14-22 | a row created with only its required fields has location "", quantity 0, reorder level 10, both timestamps `now` and no audit users |
| InventoryModels.Display | inventory/models.py:41-42 | `__str__` starts with the name, is the bare name exactly when location is empty, and otherwise ends with " (location)" |
| InventoryModels.DeleteItemRows | inventory/models.py:8-12 | deleting the catalog item removes exactly the rows that refer to it |
| InventoryModels.Unlinked | inventory/models.py:23-36 | definition: SET_NULL on one audit field, which becomes null exactly when it names the deleted user |
| InventoryModels.DeleteUserAudit | inventory/models.py:23-36 | deleting a user keeps every row and nulls exactly the audit fields that named that user |
| InventoryModels.NameLe | inventory/models.py:38-39 | definition: the `ordering = ["name"]` comparison, by code point |
| InventoryModels.OrderedByName | inventory/models.py:38-39 | definition: every row's name is at most the next row's name |
| InventoryModels.NameLeTotal | inventory/models.py:38-39 | any two names are comparable in the name order |
| InventoryModels.InsertByName | inventory/models.py:38-39 | inserting into a name-ordered table keeps it ordered and adds exactly that row |
| InventoryModels.OrderByName | inventory/models.py:38-39 | the default ordering is sorted by name and is a permutation of the table |
| InventoryViews.StockNonNegative | inventro/inventory/views.py:117-130 | definition: every item's `in_stock` is at least 0, the invariant the 400 guard keeps |
| InventoryViews.Borrowed | inventro/inventory/views.py:110-132 | unknown item gives 404 and out-of-stock gives 400, both with no change; otherwise stock drops by exactly 1, the user's row rises by 1 or is created with `created` units, nothing else changes, and stock stays non-negative |
| InventoryViews.Returned | inventro/inventory/views.py:134-152 | no item or no ledger row gives 404 with no change; otherwise stock rises by exactly 1, a row above 1 is decremented and any other is deleted, and nothing else changes |
| InventoryViews.RefusedBorrowThenReturn | inventro/inventory/views.py:116-151 | a borrow refused because the item is out of stock changes nothing, and a return by a holder then leaves one unit in stock: the round trip restores stock only when the borrow succeeds |
| InventoryViews.BorrowThenReturn | inventro/inventory/views.py:120-131 | a borrow and then a return restore the stock; they also restore the ledger when the user held at least one unit, or held none and a new row starts at 1 or less |
| InventoryViews.BorrowThenReturnDropsEmptyRow | inventro/inventory/views.py:144-148 | a ledger row holding 0 is deleted by a borrow and return, so the ledger is not restored |
| InventoryViews.BorrowThenReturnLeavesRow | inventro/inventory/views.py:126-128 | when a new row starts above 1 unit, a borrow and return leave a row with one unit fewer than it started with |
| InventoryViews.ThreeBorrowsOneReturn | inventro/inventory/views.py:120-151 | from 5 in stock, 3 borrows and 1 return leave the user's row at `created + 1` and 3 in stock |
| InventoryViews.MayDelete | inventro/inventory/views.py:228 | definition: a staff or superuser account may delete items |
| InventoryViews.IsForce | inventro/inventory/views.py:237 | definition: the lower-cased `force` field, or "" when absent, is one of "1", "true" and "yes" |
| InventoryViews.IsForceExactly | inventro/inventory/views.py:237 | the force flag is "1", or "true" or "yes" in any letter case, and nothing else |
| InventoryViews.SoftDeleted | inventro/inventory/views.py:253-258 | a soft delete clears `is_active`, records the user when the assignment is accepted, and changes nothing else |
| InventoryViews.GetPosIntParameter | inventro/inventory/views.py:187-193 | as written: the result is the request's value only when it parses to a value of 0 or less; a positive value, a missing parameter and a value that fails to parse all give the default |
| InventoryViews.PositiveIntParameter | inventro/inventory/views.py:187-193 | the helper as its name intends: a positive request value wins, anything else gives the default, so a positive default gives a positive result |
| InventoryViews.PageThreeIsIgnored | inventro/inventory/views.py:162 | `?page=3` gives page 1 as written and page 3 as intended |
| InventoryViews.PageRequest | inventro/inventory/views.py:161-165 | the paging as intended, the corrected half of the finding: with `PositiveIntParameter` the page size and page number are always at least 1, with defaults of 10 and 1; as written the view uses `GetPosIntParameter` instead |
| InventoryViews.PerPageZeroReachesPaginator | inventro/inventory/views.py:161-164 | `?per_page=0` hands a page size of 0 to the paginator as written, and 10 as intended |
| InventoryViews.StatusHolds | inventro/inventory/views.py:208-213 | definition: "in" means `in_stock > 0`, "out" means `in_stock == 0`, "low" means `in_stock < total_amount`, and any other value holds for every row |
| InventoryViews.MatchesText | inventro/inventory/views.py:202-203 | definition: the name or the SKU contains `q`, ignoring case |
| InventoryViews.MatchesCategory | inventro/inventory/views.py:205-206 | definition: an absent or empty category holds for every row; otherwise the row's category name equals it, ignoring case |
| InventoryViews.Listed | inventro/inventory/views.py:196-213 | definition: an item is listed when it is active and passes the stripped `q`, the category and the status tests |
| InventoryViews.ByText | inventro/inventory/views.py:202-203 | a non-empty `q` keeps exactly the rows whose name or SKU contains it, ignoring case |
| InventoryViews.ByCategory | inventro/inventory/views.py:205-206 | a non-empty `category` keeps exactly the rows whose category name equals it, ignoring case |
| InventoryViews.ByStatus | inventro/inventory/views.py:208-213 | status "in" keeps `in_stock > 0`, "out" keeps `in_stock == 0`, "low" keeps `in_stock < total_amount`, and any other value keeps everything |
| InventoryViews.FilterItems | inventro/inventory/views.py:195-218 | the listing holds exactly the active items that pass the stripped `q`, the category and the status filters |
| InventoryViews.SoftDeletedIsNotListed | inventro/inventory/views.py:196 | a soft-deleted item never appears in the listing |
| InventoryViews.Store.Valid | inventory/models.py:8-12 | definition: the class invariant, items stored under their own key below the key counter, ledger rows whose item foreign key exists, `WellFormed` cart lines, and carts below the cart key counter |
| InventoryViews.Store.AddToInventory | inventro/inventory/views.py:110-132 | the step-by-step view leaves the status, catalog and ledger that `Borrowed` gives, and keeps the store invariant |
| InventoryViews.Store.RemoveFromInventory | inventro/inventory/views.py:134-152 | the step-by-step view leaves the status, catalog and ledger that `Returned` gives, and keeps the store invariant |
| InventoryViews.Store.GetCart | inventro/inventory/views.py:55-58 | a user with two or more carts gives an error with no change; otherwise the result is the user's only cart, created under the next key if the user had none; with one cart per user there is never an error |
| InventoryViews.Store.RemoveItem | inventro/inventory/views.py:60-88 | the cart is looked up first; a missing or zero `item_id` gives 400 with no lines deleted; no matching line gives 404; otherwise exactly the one (cart, item) line is deleted; a cart created on the way takes the next key and advances the counter |
| InventoryViews.Store.Clear | inventro/inventory/views.py:90-99 | after `clear` the user's cart has no lines, every other cart's lines are kept, and uniqueness is kept; a cart created on the way takes the next key and advances the counter |
| InventoryViews.Store.Destroy | inventro/inventory/views.py:23-32 | an unknown item gives 404; otherwise the item is soft-deleted with no guard, with 204, and no row is removed |
| InventoryViews.Store.DeleteItem | inventro/inventory/views.py:221-272 | non-staff users are refused with no change; an unknown item gives 404; GET changes nothing; a POST with stock left and no force is refused with no change; otherwise the item is only soft-deleted, and no row is removed |
| DashboardViews.IsLowStock | dashboard/views.py:69 | definition: a row is low stock when its quantity is strictly between 0 and the threshold |
| DashboardViews.IsOutOfStock | dashboard/views.py:70 | definition: a row is out of stock when its quantity is 0 or less |
| DashboardViews.IsNewSince | dashboard/views.py:71 | definition: a row is new when it was created at or after the cut-off |
| DashboardViews.Threshold | dashboard/views.py:64 | definition: the low-stock threshold is the configured one, and 10 when it is unset |
| DashboardViews.MetricsDict | dashboard/views.py:58-84 | `total_items` is the row count; low-stock and out-of-stock rows together number at most the total; new rows number at most the total; the valuation and vendor fields are None; an empty ledger gives zero counts; `AppendRow` then fixes every count |
| DashboardViews.AppendRow | dashboard/views.py:68-71 | one more row adds one to the total and one to exactly the boxes whose condition it meets: quantity strictly between 0 and the threshold, quantity 0 or less, created within the last seven days |
| DashboardViews.ThresholdRowIsNotLow | dashboard/views.py:69 | a row whose quantity equals the threshold does not add to the low-stock count |
| DashboardViews.NoLowStockBelowTwo | dashboard/views.py:69 | the low-stock test is strict: with a threshold of 1 or less nothing counts as low |
| DashboardViews.NewRowIsOutOfStock | dashboard/views.py:68-71 | a row just created with its defaults adds one to the total, the out-of-stock and the new-items counts, and leaves the low-stock count alone |
| DashboardViews.IsSuperuser | dashboard/views.py:87-88 | definition: an authenticated superuser account |
| DashboardViews.RoleFlags | dashboard/views.py:142-151 | ADMIN gives superuser and staff, MANAGER gives staff only, any other role gives neither; superuser implies staff |
| DashboardViews.AddUser | dashboard/views.py:133-159 | only an authenticated superuser gets past the guard; a valid POST creates the account with the role's flags and redirects; anything else creates nothing |
| DashboardViews.RolePermissions | dashboard/views.py:87-88 | an ADMIN account passes `is_superuser`; ADMIN and MANAGER accounts may delete items; a STAFF account may do neither |
| ItemFormViews.Message | inventro/dashboard/views.py:38-61 | every form error has a non-empty message |
| ItemFormViews.Cleaned | inventro/dashboard/views.py:27 | a stripped field is no longer than the raw one, and is "" when the field is missing |
| ItemFormViews.CleanedIsInfix | inventro/dashboard/views.py:27 | a present field is cleaned to the slice of its raw value between its leading and its trailing whitespace |
| ItemFormViews.SkuField | inventro/dashboard/views.py:28 | the SKU is the "sku" field, or the "SKU" field when "sku" is missing or empty |
| ItemFormViews.CostRaw | inventro/dashboard/views.py:33 | definition: the cost is the "cost" field, or the "price" field when "cost" is missing or empty |
| ItemFormViews.ParseCount | inventro/dashboard/views.py:46-54 | definition: a missing or empty count is 0 and so is one `int()` rejects; a count is never an error |
| ItemFormViews.ParseCost | inventro/dashboard/views.py:56-61 | definition: a missing or empty cost is 0; a non-empty one is what the decimal parser gives, and a rejection is the price error |
| ItemFormViews.FindCategory | inventro/dashboard/views.py:40-44 | the category is found exactly when the value parses to a key that names a category |
| ItemFormViews.NoneIfEmpty | inventro/dashboard/views.py:72-74 | definition: `x or None` is None exactly when the string is empty |
| ItemFormViews.Read | inventro/dashboard/views.py:27-34 | definition: the submission holds the stripped text fields, the SKU and the cost with their fallback keys, and the raw counts and category |
| ItemFormViews.HasRequired | inventro/dashboard/views.py:37 | definition: the cleaned name and SKU are non-empty and the category field is present and non-empty |
| ItemFormViews.FirstError | inventro/dashboard/views.py:40-61 | the category error comes first; the price error counts only when there is no category error; no error exactly when both checks pass |
| ItemFormViews.Decide | inventro/dashboard/views.py:37-64 | a missing name, SKU or category gives the "required" error; otherwise an unknown category and then an invalid price give their errors; a clean form saves the cleaned fields, with empty location and description as None |
| ItemFormViews.CountsNeverReject | inventro/dashboard/views.py:46-54 | changing `in_stock` or `total_amount` never changes whether a form is accepted, or which error it shows |
| ItemFormViews.BlankNameIsMissing | inventro/dashboard/views.py:27-38 | a name made only of whitespace counts as missing |
| ItemFormViews.FirstErrorWins | inventro/dashboard/views.py:40-61 | with both a bad category and a bad price, the category error is shown |
| ItemFormViews.BlankOptionalFields | inventro/dashboard/views.py:72-91 | a blank location and description are saved as None, and a missing cost as 0 |
| ItemFormViews.Updated | inventro/dashboard/views.py:65-79 | an update overwrites every form field, keeps the key, the active flag and the creator, and records the editor when the assignment is accepted |
| ItemFormViews.Created | inventro/dashboard/views.py:81-98 | a new item holds the form's fields, is active, and has the same creator and last editor |
| ItemFormViews.CreatedIsListed | inventro/inventory/views.py:195-218 | a created item shows in the unfiltered listing |
| ItemFormViews.UpdateItem | inventro/dashboard/views.py:65-79 | the update writes `Updated` of the old row back under its key and keeps the store invariant |
| ItemFormViews.CreateItem | inventro/dashboard/views.py:81-98 | the create adds `Created` under a key not yet used, advances the key counter and keeps the store invariant |
| ItemFormViews.ItemForm | inventro/dashboard/views.py:16-108 | the view leaves the status, error, item table and key counter that `ItemFormResult` gives, and keeps the store invariant |
| ItemFormViews.Edits | inventro/dashboard/views.py:21-24 | definition: the form edits an existing item exactly when an item id is given |
| ItemFormViews.EditsMissing | inventro/dashboard/views.py:21-22 | definition: an item id is given that names no item, the 404 case |
| ItemFormViews.ItemFormResult | inventro/dashboard/views.py:16-108 | editing a missing item gives 404; GET and a failed check change nothing, and a failed check shows its error; a save redirects; only a save changes the table |
| ItemFormViews.SaveTouchesOneRow | inventro/dashboard/views.py:64-99 | a save changes one row: an edit keeps the set of keys, a create adds exactly one new key, and every other item is unchanged |

## Left out

- Rendering, templates, redirect targets, `messages`, the serializers and the JSON bodies.
  Responses are the `Common.Status` outcome and, for the item form, the error text.
- `api_search` is left out: it calls a search service over the network and swallows its
  errors.
- `metrics` and `metrics_api` only wrap `_metrics_dict` in JSON. `metrics_api` calls a name
  its module never defines.
- The page views `intro`, `index`, `inventory`, `my_inventory_view` and `cart` change no
  state except the cart lookup, and only their rendering is left out. Their computations are
  modelled: `index` renders `DashboardViews.MetricsDict`; `inventory` renders
  `InventoryViews.FilterItems` with paging by `GetPosIntParameter`; both `cart` views
  (inventro/inventory/views.py and dashboard/views.py) get-or-create the user's cart, the step
  `InventoryViews.Store.GetCart` models.
  As written, the paging arguments of `inventory` are `GetPosIntParameter` of the request;
  `PageRequest` is the paging as intended, the corrected half of the finding below. The
  `Paginator` itself is not modelled.
- Authentication, `login_required`, DRF permissions and routing.
- `add_user`'s `UserCreationForm` validation and its email field. The form's validity is a
  parameter.
- Transactions and concurrency. Each view is one sequential step. The borrow and return
  dual write is not atomic in the program, and the model does not express that.
- Python `int()` and `Decimal()` parsing, `Decimal` arithmetic, NaN, and the `value`
  annotation `price * in_stock`. Parsing is a parameter, costs are `real`, and the
  annotation is not modelled.
- Unicode case mapping and database collation. `Lower` maps only ASCII letters, and
  `NameLe` orders by code point.
- `added_at`, the refresh of `updated_at` on save, and `__str__` of Cart and CartItem.
  Timestamps are plain numbers given by the caller.
- `user.inventory` and the `borrower` field are one ledger map keyed by (user, item). Their
  model, inventro/inventory/models.py, is not among the modelled files, so the two lookups in
  `remove_from_inventory_view` cannot disagree here.
- An `item_id` of `remove_item`, `remove` or `add` (`CartApi.Add`) that is present but not a
  number raises in the ORM. The model takes `item_id` as an optional number.
- `InventoryViews.Store.RemoveItem`: `item_id` is read as the JSON number the endpoint
  documents, so 0 is falsy and gives 400. A form-encoded `"0"` is a non-empty string, passes
  the guard and reaches the delete (404 unless the cart has a line for item 0); the model
  does not distinguish the two encodings.
- SKU uniqueness and the other constraints of the `Item` model are not modelled, because
  products/models.py is not among the modelled files.
- Integer widths. Quantities, stock counts and keys are unbounded `nat`/`int`; the database's
  upper bound on a `PositiveIntegerField` (so a very large `add` that fails on save) and on
  the key columns is not modelled.
- `InventoryViews.Store.DeleteItem`: the HTMX header is a boolean parameter, and the success
  message is not modelled.
- `InventoryModels.OrderByName`: it is stated as sorted and a permutation, not as the
  database's stable order for equal names.

## Findings

| source | as written | input that shows it | evidently intended | confidence | as-written member | corrected member |
|---|---|---|---|---|---|---|
| inventro/inventory/views.py:191 | `param = default if param > 0 else param` keeps the request value only when it is not positive | `?page=3` gives page 1; `?per_page=0` gives a page size of 0 to the paginator | keep a positive value, and otherwise fall back to the default | not executed | InventoryViews.GetPosIntParameter, InventoryViews.PageThreeIsIgnored, InventoryViews.PerPageZeroReachesPaginator | InventoryViews.PositiveIntParameter, InventoryViews.PageRequest |
