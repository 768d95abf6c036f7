/** The database behind the order endpoint, as an abstract store: the
    `users` table with its unique email, the `subscription_plans` table, and
    the `orders` table whose ids come from a serial counter.  A value of
    `Store` is the committed state; an operation that does not commit returns
    the store it was given. */
module OrderStore {

  import opened Wrappers
  import opened Wire
  import opened Decimal

  /** The `text` a column holds after PostgreSQL's assignment cast of the
      literal psycopg2 sends for a JSON scalar: a string is itself, an integer
      its decimal text, a boolean `true` or `false`, and `None` is NULL. */
  function ColumnText(v: Value): (t: Option<string>)
    ensures t.None? <==> v == Null
    ensures Truthy(v) ==> t.Some? && t.value != ""
    ensures v.Str? ==> t == Some(v.s)
    ensures v.Int? && v.i >= 0 ==> ParseNat(t.value) == Some(v.i)
    ensures v.Bool? ==> t == Some(if v.b then "true" else "false")
  {
    match v
    case Str(s) => Some(s)
    case Int(i) => Some(Signed(i))
    case Bool(b) => Some(if b then "true" else "false")
    case Null => None
  }

  /** A text cell as the listing returns it: a JSON string, or `null`. */
  function Cell(t: Option<string>): Value
  {
    if t.Some? then Str(t.value) else Null
  }

  /** A user row; the email is never NULL because a create requires it. */
  datatype User = User(email: string, name: Option<string>, phone: Option<string>, address: Option<string>)

  datatype Plan = Plan(name: string, duration: string, price: int)

  /** One row of `orders`; `createdAt` and `updatedAt` are database timestamps. */
  datatype OrderRow = OrderRow(
    userId: int,
    planId: string,
    address: Option<string>,
    status: string,
    startDate: int,
    endDate: int,
    createdAt: int,
    updatedAt: Option<int>)

  /** `emailIndex` is the unique index on `users.email`. */
  datatype Store = Store(
    users: map<int, User>,
    emailIndex: map<string, int>,
    nextUserId: int,
    plans: map<string, Plan>,
    orders: map<int, OrderRow>,
    nextOrderId: int)

  /** The constraints the database keeps: the email index and the users
      table agree, serial ids lie below their counters, and every order
      refers to an existing user and plan. */
  ghost predicate Valid(st: Store)
  {
    && 1 <= st.nextUserId && 1 <= st.nextOrderId
    && (forall e :: e in st.emailIndex ==>
          st.emailIndex[e] in st.users && st.users[st.emailIndex[e]].email == e)
    && (forall id :: id in st.users ==>
          1 <= id < st.nextUserId
          && st.users[id].email in st.emailIndex && st.emailIndex[st.users[id].email] == id)
    && (forall id :: id in st.orders ==>
          1 <= id < st.nextOrderId
          && st.orders[id].userId in st.users && st.orders[id].planId in st.plans)
  }

  /** No two users share an email. */
  lemma OneUserPerEmail(st: Store, i: int, j: int)
    requires Valid(st)
    requires i in st.users && j in st.users && st.users[i].email == st.users[j].email
    ensures i == j
  {
    assert st.emailIndex[st.users[i].email] == i;
  }

  datatype Upserted = Upserted(store: Store, userId: int)

  /** `INSERT INTO users ... ON CONFLICT (email) DO UPDATE SET name, phone,
      address ... RETURNING id`: an existing email keeps its id and has its
      other columns overwritten; a new email gets the next id.  Either way
      the serial advances, since the candidate row's id default is drawn
      before the conflict is found. */
  function UpsertUser(st: Store, u: User): (r: Upserted)
    requires Valid(st)
    ensures Valid(r.store)
    ensures r.store.users == st.users[r.userId := u]
    ensures u.email in r.store.emailIndex && r.store.emailIndex[u.email] == r.userId
    ensures u.email in st.emailIndex ==> r.userId == st.emailIndex[u.email]
    ensures u.email !in st.emailIndex ==> r.userId !in st.users
    ensures r.store.plans == st.plans && r.store.orders == st.orders
    ensures r.store.nextOrderId == st.nextOrderId
    ensures r.store.nextUserId == st.nextUserId + 1
  {
    if u.email in st.emailIndex then
      var id := st.emailIndex[u.email];
      Upserted(st.(users := st.users[id := u], nextUserId := st.nextUserId + 1), id)
    else
      var id := st.nextUserId;
      assert forall other :: other in st.users ==> st.users[other].email != u.email;
      Upserted(st.(users := st.users[id := u],
                   emailIndex := st.emailIndex[u.email := id],
                   nextUserId := id + 1), id)
  }

}
