/** The two SELECTs of `get_orders`: the administrator's join of every order
    with its user and plan, newest first, and a customer's join of their own
    orders with the plan, optionally narrowed to one status. */
module Listing {

  import opened Wire
  import opened OrderStore

  /** Row `id` of the administrator query (orders JOIN users JOIN plans). */
  function AdminRow(st: Store, id: int): AdminOrder
    requires Valid(st) && id in st.orders
  {
    var o := st.orders[id];
    var u := st.users[o.userId];
    var p := st.plans[o.planId];
    AdminOrder(id, Cell(u.name), Str(u.email), Cell(u.phone), Cell(o.address), p.name, p.price, o.status,
               o.createdAt, o.startDate, o.endDate)
  }

  /** Row `id` of the customer query (orders JOIN plans). */
  function UserRow(st: Store, id: int): UserOrder
    requires Valid(st) && id in st.orders
  {
    var o := st.orders[id];
    var p := st.plans[o.planId];
    UserOrder(id, Cell(o.address), p.name, p.price, o.status, o.createdAt, o.startDate, o.endDate)
  }

  /** `ORDER BY created_at DESC`, with equal timestamps ordered by id, larger
      first, so that the order is total. */
  predicate NotOlder(a: AdminOrder, b: AdminOrder)
  {
    a.createdAt > b.createdAt || (a.createdAt == b.createdAt && a.id >= b.id)
  }

  ghost predicate NewestFirst(s: seq<AdminOrder>)
  {
    forall i, j :: 0 <= i < j < |s| ==> NotOlder(s[i], s[j])
  }

  /** Puts `x` into a sequence in front of the first row it is not older than. */
  function InsertByAge(x: AdminOrder, s: seq<AdminOrder>): (r: seq<AdminOrder>)
    ensures multiset(r) == multiset(s) + multiset{x}
    decreases |s|
  {
    if |s| == 0 then [x]
    else if NotOlder(x, s[0]) then [x] + s
    else
      assert s == [s[0]] + s[1..];
      [s[0]] + InsertByAge(x, s[1..])
  }

  /** Inserting into a newest-first sequence keeps it newest first. */
  lemma {:induction false} InsertByAgeKeepsOrder(x: AdminOrder, s: seq<AdminOrder>)
    requires NewestFirst(s)
    ensures NewestFirst(InsertByAge(x, s))
    decreases |s|
  {
    if |s| > 0 && !NotOlder(x, s[0]) {
      var rest := InsertByAge(x, s[1..]);
      InsertByAgeKeepsOrder(x, s[1..]);
      HeadPrecedesInserted(x, s);
      var r := [s[0]] + rest;
      assert r == InsertByAge(x, s);
      forall i, j | 0 <= i < j < |r| ensures NotOlder(r[i], r[j]) {
        if i == 0 {
          assert r[j] == rest[j - 1];
          assert rest[j - 1] in rest;
        } else {
          assert r[i] == rest[i - 1] && r[j] == rest[j - 1];
        }
      }
    }
  }

  /** When `x` goes behind the head, the head is not older than anything
      the rest becomes. */
  lemma HeadPrecedesInserted(x: AdminOrder, s: seq<AdminOrder>)
    requires NewestFirst(s) && |s| > 0 && !NotOlder(x, s[0])
    ensures forall y :: y in InsertByAge(x, s[1..]) ==> NotOlder(s[0], y)
  {
    var rest := InsertByAge(x, s[1..]);
    forall y | y in rest ensures NotOlder(s[0], y) {
      assert y in multiset(rest);
      if y != x {
        assert y in multiset(s[1..]);
        var k :| 0 <= k < |s[1..]| && s[1..][k] == y;
        assert s[k + 1] == y;
      }
    }
  }

  /** Sorts rows newest first, keeping every row exactly as often as given. */
  function SortByAge(s: seq<AdminOrder>): (r: seq<AdminOrder>)
    ensures NewestFirst(r)
    ensures multiset(r) == multiset(s)
    decreases |s|
  {
    if |s| == 0 then []
    else
      assert s == [s[0]] + s[1..];
      var sorted := SortByAge(s[1..]);
      InsertByAgeKeepsOrder(s[0], sorted);
      InsertByAge(s[0], sorted)
  }

  /** Administrator rows of the orders with ids in `[1, n)`, by ascending id:
      each such order's row occurs once, and nothing else occurs. */
  function AdminRows(st: Store, n: int): (rows: seq<AdminOrder>)
    requires Valid(st)
    ensures forall r :: multiset(rows)[r] ==
                        if 1 <= r.id < n && r.id in st.orders && r == AdminRow(st, r.id) then 1 else 0
    decreases n
  {
    if n <= 1 then []
    else AdminRows(st, n - 1) + (if n - 1 in st.orders then [AdminRow(st, n - 1)] else [])
  }

  /** Does order `id` belong to the customer's listing?  An empty status is
      Python's falsy `status` and filters nothing. */
  predicate Selected(st: Store, userId: int, status: string, id: int)
    requires id in st.orders
  {
    st.orders[id].userId == userId && (status == "" || st.orders[id].status == status)
  }

  /** Customer rows of the selected orders with ids in `[1, n)`. */
  function UserRows(st: Store, userId: int, status: string, n: int): (rows: seq<UserOrder>)
    requires Valid(st)
    ensures forall r :: multiset(rows)[r] ==
                        if 1 <= r.id < n && r.id in st.orders && Selected(st, userId, status, r.id)
                           && r == UserRow(st, r.id) then 1 else 0
    decreases n
  {
    if n <= 1 then []
    else
      var prev := UserRows(st, userId, status, n - 1);
      var last := if n - 1 in st.orders && Selected(st, userId, status, n - 1) then [UserRow(st, n - 1)] else [];
      assert forall r :: multiset(last)[r] ==
               if r.id == n - 1 && r.id in st.orders && Selected(st, userId, status, r.id) && r == UserRow(st, r.id)
               then 1 else 0;
      assert multiset(prev + last) == multiset(prev) + multiset(last);
      prev + last
  }

  /** The administrator listing: every order of the store once, joined with
      its user and plan, newest first. */
  function AdminListing(st: Store): (rows: seq<AdminOrder>)
    requires Valid(st)
    ensures NewestFirst(rows)
    ensures forall r :: multiset(rows)[r] ==
                        if r.id in st.orders && r == AdminRow(st, r.id) then 1 else 0
  {
    SortByAge(AdminRows(st, st.nextOrderId))
  }

  /** A customer's listing: exactly that customer's orders (of the given
      status, when one is given), each once, joined with its plan.  The
      query has no ORDER BY; this model lists them by ascending id. */
  function UserListing(st: Store, userId: int, status: string): (rows: seq<UserOrder>)
    requires Valid(st)
    ensures forall r :: multiset(rows)[r] ==
                        if r.id in st.orders && Selected(st, userId, status, r.id) && r == UserRow(st, r.id)
                        then 1 else 0
  {
    UserRows(st, userId, status, st.nextOrderId)
  }

  /** Ids of orders in `[1, n)`. */
  function IdsBelow(st: Store, n: int): set<int>
  {
    set id | id in st.orders && 1 <= id < n
  }

  lemma IdsBelowStep(st: Store, n: int)
    requires n > 1
    ensures |IdsBelow(st, n)| == |IdsBelow(st, n - 1)| + (if n - 1 in st.orders then 1 else 0)
  {
    if n - 1 in st.orders {
      assert IdsBelow(st, n) == IdsBelow(st, n - 1) + {n - 1};
    } else {
      assert IdsBelow(st, n) == IdsBelow(st, n - 1);
    }
  }

  lemma {:induction false} AdminRowsSize(st: Store, n: int)
    requires Valid(st)
    ensures |AdminRows(st, n)| == |IdsBelow(st, n)|
    decreases n
  {
    if n <= 1 {
      assert IdsBelow(st, n) == {};
    } else {
      AdminRowsSize(st, n - 1);
      IdsBelowStep(st, n);
      assert |AdminRows(st, n)| == |AdminRows(st, n - 1)| + (if n - 1 in st.orders then 1 else 0);
    }
  }

  /** The administrator listing has one row per order of the store. */
  lemma AdminListingSize(st: Store)
    requires Valid(st)
    ensures |AdminListing(st)| == |st.orders|
  {
    AdminRowsSize(st, st.nextOrderId);
    var rows := AdminRows(st, st.nextOrderId);
    assert |multiset(AdminListing(st))| == |multiset(rows)|;
    assert IdsBelow(st, st.nextOrderId) == st.orders.Keys;
  }

}
