/** The admin item form: the raw POST strings are cleaned and checked in a
    fixed order, each check able to set the one error message the page
    shows, and a clean submission either overwrites the edited item or
    creates a new one. */
module ItemFormViews {
  import opened Common
  import opened Text
  import opened InventoryViews

  /** The errors the form can show. */
  datatype FormError = Required | InvalidCategory | InvalidPrice

  /** The text the page shows for an error. */
  function Message(e: FormError): (m: string)
    ensures m != ""
  {
    match e
    case Required => "Name, SKU and Category are required."
    case InvalidCategory => "Invalid category selected."
    case InvalidPrice => "Invalid price value"
  }

  /** The values a save writes to the item. */
  datatype ItemFields = ItemFields(
    name: string,
    sku: string,
    category: CategoryId,
    inStock: int,
    totalAmount: int,
    location: Option<string>,
    cost: real,
    description: Option<string>)

  /** The outcome of the checks: the error the page shows, or what to save. */
  datatype Decision = Invalid(error: FormError) | Save(fields: ItemFields)

  /** `(POST.get(key) or "").strip()`. */
  function Cleaned(form: map<string, string>, key: string): (r: string)
    ensures |r| <= |OrEmpty(Get(form, key))|
    ensures key !in form ==> r == ""
  {
    Strip(OrEmpty(Get(form, key)))
  }

  /** A field that is present is cleaned to the slice of its raw value that
      lies between its leading and its trailing whitespace. */
  lemma CleanedIsInfix(form: map<string, string>, key: string)
    requires key in form
    ensures exists i, j ::
              && 0 <= i <= j <= |form[key]| && Cleaned(form, key) == form[key][i..j]
              && (forall k :: 0 <= k < i ==> IsSpace(form[key][k]))
              && (forall k :: j <= k < |form[key]| ==> IsSpace(form[key][k]))
  {
    assert OrEmpty(Get(form, key)) == form[key];
    StripIsInfix(form[key]);
  }

  /** The SKU: the "sku" field, or the "SKU" field when that one is absent
      or empty, stripped. */
  function SkuField(form: map<string, string>): (r: string)
    ensures Truthy(Get(form, "sku")) ==> r == Cleaned(form, "sku")
    ensures !Truthy(Get(form, "sku")) ==> r == Cleaned(form, "SKU")
  {
    Strip(OrEmpty(OrElse(Get(form, "sku"), Get(form, "SKU"))))
  }

  /** The raw cost: the "cost" field, or the "price" field when that one is
      absent or empty. */
  function CostRaw(form: map<string, string>): (r: Option<string>)
    ensures Truthy(Get(form, "cost")) ==> r == Get(form, "cost")
    ensures !Truthy(Get(form, "cost")) ==> r == Get(form, "price")
  {
    OrElse(Get(form, "cost"), Get(form, "price"))
  }

  /** `int(raw) if raw not in (None, "") else 0`, where a ValueError also
      gives 0: a count is never an error. */
  function ParseCount(raw: Option<string>, parseInt: string -> Option<int>): (n: int)
    ensures !Truthy(raw) ==> n == 0
    ensures Truthy(raw) ==> n == (if parseInt(raw.value).Some? then parseInt(raw.value).value else 0)
  {
    if !Truthy(raw) then 0
    else match parseInt(raw.value)
      case Some(v) => v
      case None => 0
  }

  /** `Decimal(raw) if raw not in (None, "") else Decimal('0')`: None when
      the decimal parser rejects a non-empty value. */
  function ParseCost(raw: Option<string>, parseDecimal: string -> Option<real>): (r: Option<real>)
    ensures !Truthy(raw) ==> r == Some(0.0)
    ensures Truthy(raw) ==> r == parseDecimal(raw.value)
  {
    if Truthy(raw) then parseDecimal(raw.value) else Some(0.0)
  }

  /** `ItemCategory.objects.get(pk=raw)`: the category whose key the raw
      value parses to; None for a value that does not parse (ValueError) and
      for a key with no category (DoesNotExist). */
  function FindCategory(raw: string, categories: set<CategoryId>, parseInt: string -> Option<int>)
    : (r: Option<CategoryId>)
    ensures r.Some? ==> r.value in categories && parseInt(raw) == Some(r.value)
    ensures r.None? <==> forall c :: c in categories ==> parseInt(raw) != Some(c)
  {
    match parseInt(raw)
    case Some(n) => if n >= 0 && n in categories then Some(n) else None
    case None => None
  }

  /** `x or None` on a stripped string. */
  function NoneIfEmpty(s: string): (r: Option<string>)
    ensures r.None? <==> s == ""
    ensures r.Some? ==> r.value == s
  {
    if s == "" then None else Some(s)
  }

  /** The POST fields as the view reads them, before any check. */
  datatype Submission = Submission(
    name: string,
    sku: string,
    category: Option<string>,
    inStock: Option<string>,
    totalAmount: Option<string>,
    location: string,
    cost: Option<string>,
    description: string)

  /** The reads at the top of the POST branch: text fields stripped, the
      SKU and the cost with their fallback keys, the rest raw. */
  function Read(form: map<string, string>): (s: Submission)
    ensures s.name == Cleaned(form, "name") && s.sku == SkuField(form)
    ensures s.location == Cleaned(form, "location") && s.description == Cleaned(form, "description")
    ensures s.category == Get(form, "category") && s.cost == CostRaw(form)
    ensures s.inStock == Get(form, "in_stock") && s.totalAmount == Get(form, "total_amount")
  {
    Submission(Cleaned(form, "name"), SkuField(form), Get(form, "category"), Get(form, "in_stock"),
               Get(form, "total_amount"), Cleaned(form, "location"), CostRaw(form),
               Cleaned(form, "description"))
  }

  /** The required fields: a non-blank name and SKU, and a category value. */
  predicate HasRequired(s: Submission) {
    s.name != "" && s.sku != "" && Truthy(s.category)
  }

  /** The error left once the category has been looked up and the cost
      parsed, in that order: the category error is set first, and the price
      error only when no error is set yet. */
  function FirstError(category: Option<CategoryId>, cost: Option<real>): (e: Option<FormError>)
    ensures e == Some(InvalidCategory) <==> category.None?
    ensures e == Some(InvalidPrice) <==> category.Some? && cost.None?
    ensures e.None? <==> category.Some? && cost.Some?
  {
    var afterCategory: Option<FormError> := if category.None? then Some(InvalidCategory) else None;
    if cost.None? then (if afterCategory.None? then Some(InvalidPrice) else afterCategory)
    else afterCategory
  }

  /** The checks of a POST, in the program's order: the required fields,
      then the category and the cost. The counts are parsed between the two
      and never fail. */
  function Decide(s: Submission, categories: set<CategoryId>,
                  parseInt: string -> Option<int>, parseDecimal: string -> Option<real>)
    : (d: Decision)
    ensures d == Invalid(Required) <==> !HasRequired(s)
    ensures d == Invalid(InvalidCategory) <==>
      HasRequired(s) && FindCategory(s.category.value, categories, parseInt).None?
    ensures d == Invalid(InvalidPrice) <==>
      HasRequired(s) && FindCategory(s.category.value, categories, parseInt).Some? &&
      ParseCost(s.cost, parseDecimal).None?
    ensures d.Save? ==>
      && HasRequired(s)
      && d.fields.name == s.name && d.fields.sku == s.sku
      && Some(d.fields.category) == FindCategory(s.category.value, categories, parseInt)
      && d.fields.category in categories
      && d.fields.inStock == ParseCount(s.inStock, parseInt)
      && d.fields.totalAmount == ParseCount(s.totalAmount, parseInt)
      && d.fields.location == NoneIfEmpty(s.location)
      && Some(d.fields.cost) == ParseCost(s.cost, parseDecimal)
      && d.fields.description == NoneIfEmpty(s.description)
  {
    if !HasRequired(s) then Invalid(Required)
    else
      var category := FindCategory(s.category.value, categories, parseInt);
      var inStock := ParseCount(s.inStock, parseInt);
      var totalAmount := ParseCount(s.totalAmount, parseInt);
      var cost := ParseCost(s.cost, parseDecimal);
      match FirstError(category, cost)
      case Some(e) => Invalid(e)
      case None =>
        Save(ItemFields(s.name, s.sku, category.value, inStock, totalAmount,
                        NoneIfEmpty(s.location), cost.value, NoneIfEmpty(s.description)))
  }

  /** The count fields never decide whether a submission is accepted, or
      which error it shows. */
  lemma CountsNeverReject(form: map<string, string>, key: string, v: string,
                          categories: set<CategoryId>,
                          parseInt: string -> Option<int>, parseDecimal: string -> Option<real>)
    requires key == "in_stock" || key == "total_amount"
    ensures var d := Decide(Read(form), categories, parseInt, parseDecimal);
      var e := Decide(Read(form[key := v]), categories, parseInt, parseDecimal);
      && (d.Save? <==> e.Save?)
      && (d.Invalid? ==> d == e)
  {
    var f := form[key := v];
    assert Get(f, "name") == Get(form, "name");
    assert Get(f, "sku") == Get(form, "sku") && Get(f, "SKU") == Get(form, "SKU");
    assert Get(f, "category") == Get(form, "category");
    assert Get(f, "cost") == Get(form, "cost") && Get(f, "price") == Get(form, "price");
  }

  /** A name or SKU made only of whitespace is missing. */
  lemma BlankNameIsMissing(form: map<string, string>, categories: set<CategoryId>,
                           parseInt: string -> Option<int>, parseDecimal: string -> Option<real>)
    requires "name" in form && forall k :: 0 <= k < |form["name"]| ==> IsSpace(form["name"][k])
    ensures Decide(Read(form), categories, parseInt, parseDecimal) == Invalid(Required)
  {
  }

  /** When both the category and the price are bad, the page shows the
      category error: the first error wins. */
  lemma FirstErrorWins(s: Submission, categories: set<CategoryId>,
                       parseInt: string -> Option<int>, parseDecimal: string -> Option<real>)
    requires HasRequired(s)
    requires FindCategory(s.category.value, categories, parseInt).None?
    requires ParseCost(s.cost, parseDecimal).None?
    ensures Decide(s, categories, parseInt, parseDecimal) == Invalid(InvalidCategory)
  {
  }

  /** A submission with a blank location and description and no cost or
      price saves both as None and the cost as 0. */
  lemma BlankOptionalFields(form: map<string, string>, categories: set<CategoryId>,
                            parseInt: string -> Option<int>, parseDecimal: string -> Option<real>)
    requires Decide(Read(form), categories, parseInt, parseDecimal).Save?
    requires Cleaned(form, "location") == "" && Cleaned(form, "description") == ""
    requires !Truthy(Get(form, "cost")) && !Truthy(Get(form, "price"))
    ensures var f := Decide(Read(form), categories, parseInt, parseDecimal).fields;
      f.location.None? && f.description.None? && f.cost == 0.0
  {
  }

  /** The item after an update: every form field overwritten; its key, its
      active flag and its creator kept; the editor recorded when the
      assignment is accepted. */
  function Updated(x: Item, f: ItemFields, editor: User): (r: Item)
    ensures r.id == x.id && r.isActive == x.isActive && r.createdBy == x.createdBy
    ensures (r.name, r.sku, r.category, r.inStock, r.totalAmount, r.location, r.cost, r.description)
         == (f.name, f.sku, f.category, f.inStock, f.totalAmount, f.location, f.cost, f.description)
    ensures r.updatedBy == if editor.isAuthenticated then Some(editor.id) else x.updatedBy
  {
    Item(x.id, f.sku, f.name, f.category, f.inStock, f.totalAmount, f.cost, f.location,
         f.description, x.isActive, x.createdBy,
         if editor.isAuthenticated then Some(editor.id) else x.updatedBy)
  }

  /** A new item with key `id`: the form's fields, active, and created and
      updated by the user when the assignment is accepted. */
  function Created(id: ItemId, f: ItemFields, creator: User): (r: Item)
    ensures r.id == id && r.isActive
    ensures (r.name, r.sku, r.category, r.inStock, r.totalAmount, r.location, r.cost, r.description)
         == (f.name, f.sku, f.category, f.inStock, f.totalAmount, f.location, f.cost, f.description)
    ensures r.createdBy == r.updatedBy
    ensures r.createdBy == if creator.isAuthenticated then Some(creator.id) else None
  {
    var who := if creator.isAuthenticated then Some(creator.id) else None;
    Item(id, f.sku, f.name, f.category, f.inStock, f.totalAmount, f.cost, f.location,
         f.description, true, who, who)
  }

  /** A created item is active, so the unfiltered listing shows it. */
  lemma CreatedIsListed(items: seq<Item>, categories: map<CategoryId, string>,
                        id: ItemId, f: ItemFields, creator: User)
    requires Created(id, f, creator) in items
    ensures Created(id, f, creator) in FilterItems(items, categories, map[])
  {
    assert Strip("") == "";
  }

  /** The update branch of a save: the fields assigned one by one, then
      the row written back. */
  method UpdateItem(store: Store, id: ItemId, f: ItemFields, user: User)
    requires store.Valid() && id in store.items
    modifies store`items
    ensures store.Valid()
    ensures store.items == old(store.items)[id := Updated(old(store.items)[id], f, user)]
  {
    var item := store.items[id];
    item := item.(name := f.name, sku := f.sku, category := f.category);
    item := item.(inStock := f.inStock, totalAmount := f.totalAmount);
    item := item.(location := f.location, cost := f.cost, description := f.description);
    if user.isAuthenticated {
      item := item.(updatedBy := Some(user.id));
    }
    store.items := store.items[id := item];
  }

  /** The create branch of a save: one new row, under the next key. */
  method CreateItem(store: Store, f: ItemFields, user: User)
    requires store.Valid()
    modifies store`items, store`nextItemId
    ensures store.Valid()
    ensures old(store.nextItemId) !in old(store.items)
    ensures store.items == old(store.items)[old(store.nextItemId) := Created(old(store.nextItemId), f, user)]
    ensures store.nextItemId == old(store.nextItemId) + 1
  {
    var id := store.nextItemId;
    var item := Item(id, f.sku, f.name, f.category, f.inStock, f.totalAmount, f.cost,
                     f.location, f.description, true, None, None);
    if user.isAuthenticated {
      item := item.(createdBy := Some(user.id), updatedBy := Some(user.id));
    }
    store.items := store.items[id := item];
    store.nextItemId := id + 1;
  }

  /** `if item:` — the view edits an item when it is given a truthy key. */
  predicate Edits(editing: Option<ItemId>) {
    editing.Some? && editing.value != 0
  }

  /** The key to edit names no item: `get_object_or_404` answers 404. */
  predicate EditsMissing(items: map<ItemId, Item>, editing: Option<ItemId>) {
    Edits(editing) && editing.value !in items
  }

  /** What `item_form` answers and the item table and next key it leaves. */
  datatype FormResult = FormResult(status: Status, error: Option<string>,
                                   items: map<ItemId, Item>, nextItemId: ItemId)

  /** `item_form` on the item table `items` with next key `next`: with
      `editing` a truthy key the item must exist (404 otherwise); a POST that
      passes the checks saves and redirects; any other request renders the
      form with the error, if any, and changes nothing. */
  function ItemFormResult(items: map<ItemId, Item>, next: ItemId, categories: set<CategoryId>,
                          editing: Option<ItemId>, isPost: bool, sub: Submission, user: User,
                          parseInt: string -> Option<int>, parseDecimal: string -> Option<real>)
    : (r: FormResult)
    ensures EditsMissing(items, editing) ==> r == FormResult(NotFound, None, items, next)
    ensures !EditsMissing(items, editing) && !isPost ==> r == FormResult(Ok, None, items, next)
    ensures var d := Decide(sub, categories, parseInt, parseDecimal);
      && (!EditsMissing(items, editing) && isPost && d.Invalid? ==>
            r == FormResult(Ok, Some(Message(d.error)), items, next))
      && (Edits(editing) && editing.value in items && isPost && d.Save? ==>
            r == FormResult(Redirect, None, items[editing.value := Updated(items[editing.value], d.fields, user)], next))
      && (!Edits(editing) && isPost && d.Save? ==>
            r == FormResult(Redirect, None, items[next := Created(next, d.fields, user)], next + 1))
    ensures r.status == Redirect <==>
      !EditsMissing(items, editing) && isPost && Decide(sub, categories, parseInt, parseDecimal).Save?
    ensures r.status != Redirect ==> r.items == items && r.nextItemId == next
  {
    if EditsMissing(items, editing) then FormResult(NotFound, None, items, next)
    else if !isPost then FormResult(Ok, None, items, next)
    else
      match Decide(sub, categories, parseInt, parseDecimal)
      case Invalid(e) => FormResult(Ok, Some(Message(e)), items, next)
      case Save(f) =>
        if Edits(editing) then
          FormResult(Redirect, None, items[editing.value := Updated(items[editing.value], f, user)], next)
        else
          FormResult(Redirect, None, items[next := Created(next, f, user)], next + 1)
  }

  /** A save touches one row: an edit overwrites the edited item and a
      create adds exactly one item under a fresh key; every other item is
      left as it was. */
  lemma SaveTouchesOneRow(items: map<ItemId, Item>, next: ItemId, categories: set<CategoryId>,
                          editing: Option<ItemId>, isPost: bool, sub: Submission, user: User,
                          parseInt: string -> Option<int>, parseDecimal: string -> Option<real>)
    requires next !in items
    ensures var r := ItemFormResult(items, next, categories, editing, isPost, sub, user, parseInt, parseDecimal);
      && (Edits(editing) ==> r.items.Keys == items.Keys)
      && (!Edits(editing) && r.status == Redirect ==> r.items.Keys == items.Keys + {next} && |r.items| == |items| + 1)
      && (forall id :: id in items && (!Edits(editing) || id != editing.value) ==> id in r.items && r.items[id] == items[id])
  {
  }

  /** `item_form`, on the store. */
  method ItemForm(store: Store, editing: Option<ItemId>, isPost: bool, form: map<string, string>,
                  user: User, parseInt: string -> Option<int>, parseDecimal: string -> Option<real>)
    returns (status: Status, error: Option<string>)
    requires store.Valid()
    modifies store`items, store`nextItemId
    ensures store.Valid()
    ensures FormResult(status, error, store.items, store.nextItemId) ==
      ItemFormResult(old(store.items), old(store.nextItemId), store.categories.Keys,
                     editing, isPost, Read(form), user, parseInt, parseDecimal)
  {
    var existing: Option<ItemId> := None;
    if Edits(editing) {
      if editing.value !in store.items {
        return NotFound, None;
      }
      existing := editing;
    }
    if !isPost {
      return Ok, None;
    }
    var d := Decide(Read(form), store.categories.Keys, parseInt, parseDecimal);
    if d.Invalid? {
      return Ok, Some(Message(d.error));
    }
    if existing.Some? {
      UpdateItem(store, existing.value, d.fields, user);
    } else {
      CreateItem(store, d.fields, user);
    }
    status, error := Redirect, None;
  }
}
