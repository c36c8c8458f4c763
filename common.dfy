/** Values shared by every part of the store model: optional values, the
    outcome of a view, identifiers, the requesting user, the catalog item
    record and the filtering of a table, which is how every query of the
    program selects rows. */
module Common {

  datatype Option<+T> = None | Some(value: T)

  type UserId = nat
  type ItemId = nat
  type CategoryId = nat
  type CartId = nat

  /** The HTTP outcome of a view, with rendering and message bodies left
      out. Ok is a rendered page or a 200 response; Redirect is the redirect
      a form view answers after saving; Blocked is the "confirm" page or 400
      that a guarded delete answers with; ServerError is an exception nobody
      catches. */
  datatype Status = Ok | NoContent | Redirect | BadRequest | NotFound | Forbidden | Blocked | ServerError

  /** The requesting user as the views see it. A real account is always
      authenticated; the anonymous user is not. */
  datatype User = User(id: UserId, isAuthenticated: bool, isStaff: bool, isSuperuser: bool)

  /** A catalog item (the fields the core views read or write). */
  datatype Item = Item(
    id: ItemId,
    sku: string,
    name: string,
    category: CategoryId,
    inStock: int,
    totalAmount: int,
    cost: real,
    location: Option<string>,
    description: Option<string>,
    isActive: bool,
    createdBy: Option<UserId>,
    updatedBy: Option<UserId>)

  /** `d.get(k)` on a request's GET/POST data. */
  function Get(m: map<string, string>, k: string): (r: Option<string>)
    ensures r.Some? <==> k in m
    ensures r.Some? ==> r.value == m[k]
  {
    if k in m then Some(m[k]) else None
  }

  /** Python truthiness of an optional string: present and non-empty. */
  predicate Truthy(o: Option<string>) {
    o.Some? && o.value != ""
  }

  /** Python `a or b` on optional strings. */
  function OrElse(a: Option<string>, b: Option<string>): (r: Option<string>)
    ensures Truthy(a) ==> r == a
    ensures !Truthy(a) ==> r == b
  {
    if Truthy(a) then a else b
  }

  /** Python `a or ""`. */
  function OrEmpty(a: Option<string>): (r: string)
    ensures a.Some? ==> r == a.value
    ensures a.None? ==> r == ""
  {
    if a.Some? then a.value else ""
  }

  /** The rows of `s` that satisfy `keep`, in their order: what a queryset
      `.filter(...)` selects, and what `.exclude`-style cascades keep. */
  function Filter<T(==,!new)>(s: seq<T>, keep: T -> bool): (r: seq<T>)
    ensures |r| <= |s|
    ensures forall x :: x in r <==> x in s && keep(x)
  {
    if s == [] then []
    else if keep(s[0]) then [s[0]] + Filter(s[1..], keep)
    else Filter(s[1..], keep)
  }

  /** Filter keeps each selected row as often as it occurs, and drops the rest. */
  lemma {:induction false} FilterMultiset<T(!new)>(s: seq<T>, keep: T -> bool)
    ensures forall x :: multiset(Filter(s, keep))[x] == if keep(x) then multiset(s)[x] else 0
  {
    if s != [] {
      assert s == [s[0]] + s[1..];
      FilterMultiset(s[1..], keep);
    }
  }

  /** Filter removes nothing exactly when every row is kept. */
  lemma {:induction false} FilterKeepsAll<T(!new)>(s: seq<T>, keep: T -> bool)
    ensures |Filter(s, keep)| == |s| <==> forall k :: 0 <= k < |s| ==> keep(s[k])
    ensures |Filter(s, keep)| == |s| ==> Filter(s, keep) == s
  {
    if s != [] {
      FilterKeepsAll(s[1..], keep);
      assert forall k :: 1 <= k < |s| ==> s[k] == s[1..][k - 1];
      if !keep(s[0]) {
        assert |Filter(s, keep)| < |s|;
      }
    }
  }

  /** Filtering distributes over concatenation. */
  lemma {:induction false} FilterAppend<T(!new)>(a: seq<T>, b: seq<T>, keep: T -> bool)
    ensures Filter(a + b, keep) == Filter(a, keep) + Filter(b, keep)
  {
    if a == [] {
      assert a + b == b;
    } else {
      var ab := a + b;
      assert ab[0] == a[0] && ab[1..] == a[1..] + b;
      FilterAppend(a[1..], b, keep);
      if keep(a[0]) {
        calc {
          Filter(ab, keep);
          [a[0]] + Filter(a[1..] + b, keep);
          [a[0]] + (Filter(a[1..], keep) + Filter(b, keep));
          ([a[0]] + Filter(a[1..], keep)) + Filter(b, keep);
        }
      }
    }
  }

  /** A filter that selects no row selects the empty sequence. */
  lemma {:induction false} FilterNone<T(!new)>(s: seq<T>, keep: T -> bool)
    requires forall k :: 0 <= k < |s| ==> !keep(s[k])
    ensures Filter(s, keep) == []
  {
    if s != [] {
      assert forall k :: 0 <= k < |s| - 1 ==> s[1..][k] == s[k + 1];
      FilterNone(s[1..], keep);
    }
  }

  /** Two filters that no row satisfies together select at most all rows. */
  lemma {:induction false} FilterDisjointSizes<T(!new)>(s: seq<T>, p: T -> bool, q: T -> bool)
    requires forall x :: !(p(x) && q(x))
    ensures |Filter(s, p)| + |Filter(s, q)| <= |s|
  {
    if s != [] {
      FilterDisjointSizes(s[1..], p, q);
    }
  }
}
