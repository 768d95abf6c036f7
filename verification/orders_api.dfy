/** The order endpoint: `handler` dispatching on the HTTP method to
    `create_order`, `get_orders` and `update_order`, each a pure function from
    a request and the committed store to a response and the store after the
    call.  "Today" and the database clock are parameters. */
module OrdersApi {

  import opened Wrappers
  import opened Seqs
  import opened Wire
  import opened Decimal
  import opened OrderStatus
  import opened OrderStore
  import opened Listing

  /** The `body` of the event: absent (read as `'{}'`), text `json.loads`
      rejects, JSON that is not an object, or an object. */
  datatype Body = NoBody | Unparsable | NotAnObject | Object(fields: map<string, Value>)

  /** The event: `httpMethod` (absent reads as `GET`), the query string
      parameters (absent reads as none) and the body. */
  datatype Request = Request(httpMethod: Option<string>, query: map<string, string>, body: Body)

  /** `today` is `datetime.now().date()` as a day number; `now` is the
      database's CURRENT_TIMESTAMP. */
  datatype Clock = Clock(today: int, now: int)

  datatype Payload =
    | Empty
    | Error(error: string)
    | Created(orderId: int, userId: int)
    | AdminOrders(adminOrders: seq<AdminOrder>)
    | UserOrders(userOrders: seq<UserOrder>)
    | Updated

  datatype Response = Response(statusCode: int, payload: Payload)

  /** Exceptions the handler's `try` catches. */
  datatype Fault =
    | InvalidJson          // json.loads fails
    | BodyNotAnObject      // body.get on a non-dict
    | PlanIdNotText        // a non-string plan_id compared with the text plan id column
    | NotAnInteger         // user_id or order_id that PostgreSQL cannot read as an integer

  /** What a route function does: return a response together with the store
      as committed, or raise before committing. */
  datatype Attempt = Done(response: Response, store: Store) | Raised(fault: Fault)

  datatype Outcome = Outcome(response: Response, store: Store)

  const MethodNotAllowed: string := "Method not allowed"
  const MissingFields: string := "Missing required fields"
  const PlanNotFound: string := "Plan not found"
  const UserIdRequired: string := "user_id required for non-admin requests"
  const IdAndStatusRequired: string := "order_id and status required"
  const InvalidStatus: string := "Invalid status"
  const OrderNotFound: string := "Order not found"
  const ServerErrorPrefix: string := "Server error: "

  /** `error_response(code, message)`: the code and `{"error": message}`. */
  function ErrorResponse(code: int, message: string): Response
  {
    Response(code, Error(message))
  }

  /** This model's text for a caught exception (Python's `str(e)` is not
      reproduced). */
  function FaultText(f: Fault): string
  {
    match f
    case InvalidJson => "invalid JSON body"
    case BodyNotAnObject => "body is not a JSON object"
    case PlanIdNotText => "plan_id is not text"
    case NotAnInteger => "invalid input syntax for type integer"
  }

  /** `json.loads(event.get('body', '{}'))` followed by `.get`: the fields
      of the body, or the fault that the first `.get` raises. */
  function BodyFields(b: Body): Parsed
  {
    match b
    case NoBody => Fields(map[])
    case Object(fields) => Fields(fields)
    case Unparsable => Failed(InvalidJson)
    case NotAnObject => Failed(BodyNotAnObject)
  }

  datatype Parsed = Fields(fields: map<string, Value>) | Failed(fault: Fault)

  // ---------------------------------------------------------------- create

  /** `all([name, email, address, plan_id])`; the phone is not required. */
  predicate HasRequiredFields(fields: map<string, Value>)
  {
    Truthy(Field(fields, "name")) && Truthy(Field(fields, "email"))
    && Truthy(Field(fields, "address")) && Truthy(Field(fields, "plan_id"))
  }

  /** Days from the start date to the end date for a plan's duration label:
      the first of `1 день`, `1 месяц`, `6 месяцев`, `1 год` found in the
      label decides, and a label with none of them gets 30 days. */
  function DurationDays(duration: string): (days: int)
    ensures days in {1, 30, 180, 365}
    ensures IsInfix("1 день", duration) ==> days == 1
    ensures days == 180 ==> IsInfix("6 месяцев", duration)
    ensures days == 365 ==> IsInfix("1 год", duration)
  {
    if IsInfix("1 день", duration) then 1
    else if IsInfix("1 месяц", duration) then 30
    else if IsInfix("6 месяцев", duration) then 180
    else if IsInfix("1 год", duration) then 365
    else 30
  }

  /** The user a create request upserts. */
  function RequestUser(fields: map<string, Value>): User
    requires Truthy(Field(fields, "email"))
  {
    User(ColumnText(Field(fields, "email")).value, ColumnText(Field(fields, "name")),
         ColumnText(Field(fields, "phone")), ColumnText(Field(fields, "address")))
  }

  /** What a successful create leaves behind, relative to the store before:
      one new order under a fresh id, pending, for the upserted user and the
      requested plan, starting today and ending the plan's duration later;
      the user row of that email's column text holds the request's name,
      phone and address as text; nothing else in the orders or plans
      changed. */
  ghost predicate CreatedPendingOrder(st: Store, fields: map<string, Value>, clock: Clock, st': Store, res: Response)
  {
    && HasRequiredFields(fields)
    && var u := RequestUser(fields);
    && res.statusCode == 201 && res.payload.Created?
    && var id, uid := res.payload.orderId, res.payload.userId;
    && id !in st.orders
    && id in st'.orders
    && st'.orders == st.orders[id := st'.orders[id]]
    && st'.orders[id].status == Pending
    && st'.orders[id].userId == uid
    && st'.orders[id].address == ColumnText(Field(fields, "address"))
    && Field(fields, "plan_id") == Str(st'.orders[id].planId)
    && st'.orders[id].planId in st.plans
    && st'.orders[id].startDate == clock.today
    && st'.orders[id].endDate == clock.today + DurationDays(st.plans[st'.orders[id].planId].duration)
    && st'.orders[id].endDate > clock.today
    && st'.orders[id].createdAt == clock.now
    && st'.orders[id].updatedAt == None
    && st'.users == st.users[uid := u]
    && u.email in st'.emailIndex && st'.emailIndex[u.email] == uid
    && (u.email in st.emailIndex ==> uid == st.emailIndex[u.email])
    && (u.email !in st.emailIndex ==> uid !in st.users)
    && st'.plans == st.plans
  }

  /** `create_order`. */
  function CreateOrder(body: Body, st: Store, clock: Clock): (a: Attempt)
    requires Valid(st)
    ensures a.Done? ==> Valid(a.store)
    ensures a.Raised? <==>
              || BodyFields(body).Failed?
              || (HasRequiredFields(BodyFields(body).fields) && !Field(BodyFields(body).fields, "plan_id").Str?)
    ensures a.Done? ==> a.response.statusCode in {201, 400, 404}
    ensures a.Done? && a.response.statusCode != 201 ==> a.store == st
    ensures a.Done? && a.response.statusCode == 400 <==>
              BodyFields(body).Fields? && !HasRequiredFields(BodyFields(body).fields)
    ensures a.Done? && a.response.statusCode == 400 ==> a.response == ErrorResponse(400, MissingFields)
    ensures a.Done? && a.response.statusCode == 404 <==>
              && BodyFields(body).Fields? && HasRequiredFields(BodyFields(body).fields)
              && var planId := Field(BodyFields(body).fields, "plan_id");
              planId.Str? && planId.s !in st.plans
    ensures a.Done? && a.response.statusCode == 404 ==> a.response == ErrorResponse(404, PlanNotFound)
    ensures a.Done? && a.response.statusCode == 201 ==>
              CreatedPendingOrder(st, BodyFields(body).fields, clock, a.store, a.response)
  {
    match BodyFields(body)
    case Failed(f) => Raised(f)
    case Fields(fields) =>
      if !HasRequiredFields(fields) then Done(ErrorResponse(400, MissingFields), st)
      else
        var up := UpsertUser(st, RequestUser(fields));
        var planId := Field(fields, "plan_id");
        if !planId.Str? then Raised(PlanIdNotText)
        else if planId.s !in up.store.plans then
          // nothing is committed: the upsert is rolled back with the connection
          Done(ErrorResponse(404, PlanNotFound), st)
        else
          var plan := up.store.plans[planId.s];
          var id := up.store.nextOrderId;
          var row := OrderRow(up.userId, planId.s, ColumnText(Field(fields, "address")), Pending,
                              clock.today, clock.today + DurationDays(plan.duration), clock.now, None);
          Done(Response(201, Created(id, up.userId)),
               up.store.(orders := up.store.orders[id := row], nextOrderId := id + 1))
  }

  /** Users are found by the text their email column holds, so two create
      requests whose emails cast to the same text reach the same user. */
  lemma SameEmailTextSameUser(st: Store, f: map<string, Value>, g: map<string, Value>)
    requires Valid(st) && HasRequiredFields(f) && HasRequiredFields(g)
    requires ColumnText(Field(f, "email")) == ColumnText(Field(g, "email"))
    ensures UpsertUser(st, RequestUser(f)).userId == UpsertUser(st, RequestUser(g)).userId
    ensures UpsertUser(st, RequestUser(f)).store.users.Keys == UpsertUser(st, RequestUser(g)).store.users.Keys
  {
  }

  /** A JSON number as the email reaches the user whose email is that
      number's decimal text, rather than making a second user. */
  lemma NumericEmailIsItsText(st: Store, fields: map<string, Value>, n: nat)
    requires Valid(st) && HasRequiredFields(fields) && Field(fields, "email") == Int(n)
    requires Render(n) in st.emailIndex
    ensures UpsertUser(st, RequestUser(fields)).userId == st.emailIndex[Render(n)]
    ensures UpsertUser(st, RequestUser(fields)).store.users.Keys == st.users.Keys
  {
    ParseRender(n);
  }

  // ------------------------------------------------------------------ read

  /** `params.get(key)`, with a missing key read as the empty (falsy) string. */
  function Param(query: map<string, string>, key: string): string
  {
    if key in query then query[key] else ""
  }

  /** `get_orders`. */
  function GetOrders(query: map<string, string>, st: Store): (a: Attempt)
    requires Valid(st)
    ensures a.Done? ==> a.store == st
    ensures Param(query, "admin") == "true" ==>
              && a.Done? && a.response.statusCode == 200 && a.response.payload.AdminOrders?
              && var rows := a.response.payload.adminOrders;
              && NewestFirst(rows)
              && forall r :: multiset(rows)[r] ==
                               if r.id in st.orders && r == AdminRow(st, r.id) then 1 else 0
    ensures Param(query, "admin") != "true" && Param(query, "user_id") == "" ==>
              a == Done(ErrorResponse(400, UserIdRequired), st)
    ensures Param(query, "admin") != "true" && Param(query, "user_id") != "" ==>
              match ParseNat(Param(query, "user_id"))
              case None => a.Raised?
              case Some(uid) =>
                && a.Done? && a.response.statusCode == 200 && a.response.payload.UserOrders?
                && var rows := a.response.payload.userOrders;
                forall r :: multiset(rows)[r] ==
                              if r.id in st.orders && st.orders[r.id].userId == uid
                                 && (Param(query, "status") == "" || st.orders[r.id].status == Param(query, "status"))
                                 && r == UserRow(st, r.id)
                              then 1 else 0
  {
    if Param(query, "admin") == "true" then
      Done(Response(200, AdminOrders(AdminListing(st))), st)
    else if Param(query, "user_id") == "" then
      Done(ErrorResponse(400, UserIdRequired), st)
    else
      match ParseNat(Param(query, "user_id"))
      case None => Raised(NotAnInteger)
      case Some(uid) =>
        Done(Response(200, UserOrders(UserListing(st, uid, Param(query, "status")))), st)
  }

  // ---------------------------------------------------------------- update

  /** The order id an `order_id` value denotes in `WHERE id = %s`: a JSON
      integer, or text PostgreSQL reads as an integer. */
  function OrderKey(v: Value): Option<int>
  {
    match v
    case Int(i) => Some(i)
    case Str(s) => (match ParseNat(s) case Some(n) => Some(n) case None => None)
    case _ => None
  }

  /** The store after setting order `id`'s status at time `now`: only that
      order's status and update time change. */
  function SetStatus(st: Store, id: int, status: string, now: int): (st': Store)
    requires id in st.orders
    ensures st'.orders.Keys == st.orders.Keys
    ensures st'.orders[id].status == status && st'.orders[id].updatedAt == Some(now)
    ensures st'.orders[id] == st.orders[id].(status := status, updatedAt := Some(now))
    ensures forall k :: k in st.orders && k != id ==> st'.orders[k] == st.orders[k]
    ensures st' == st.(orders := st'.orders)
  {
    st.(orders := st.orders[id := st.orders[id].(status := status, updatedAt := Some(now))])
  }

  /** `update_order`: presence first, then the status whitelist, then the id. */
  function UpdateOrder(body: Body, st: Store, clock: Clock): (a: Attempt)
    requires Valid(st)
    ensures a.Done? ==> Valid(a.store)
    ensures BodyFields(body).Failed? ==> a.Raised?
    ensures BodyFields(body).Fields? ==>
              var id, status := Field(BodyFields(body).fields, "order_id"), Field(BodyFields(body).fields, "status");
              if !Truthy(id) || !Truthy(status) then
                a == Done(ErrorResponse(400, IdAndStatusRequired), st)
              else if !(status.Str? && IsKnown(status.s)) then
                a == Done(ErrorResponse(400, InvalidStatus), st)
              else if OrderKey(id).None? then
                a.Raised?
              else if OrderKey(id).value !in st.orders then
                a == Done(ErrorResponse(404, OrderNotFound), st)
              else
                && a.Done? && a.response.statusCode == 200
                && a.store == SetStatus(st, OrderKey(id).value, status.s, clock.now)
  {
    match BodyFields(body)
    case Failed(f) => Raised(f)
    case Fields(fields) =>
      var id, status := Field(fields, "order_id"), Field(fields, "status");
      if !Truthy(id) || !Truthy(status) then Done(ErrorResponse(400, IdAndStatusRequired), st)
      else if !(status.Str? && IsKnown(status.s)) then Done(ErrorResponse(400, InvalidStatus), st)
      else
        match OrderKey(id)
        case None => Raised(NotAnInteger)
        case Some(n) =>
          if n !in st.orders then Done(ErrorResponse(404, OrderNotFound), st)
          else Done(Response(200, Updated), SetStatus(st, n, status.s, clock.now))
  }

  // --------------------------------------------------------------- handler

  /** `event.get('httpMethod', 'GET')`. */
  function MethodOf(req: Request): string
  {
    match req.httpMethod
    case Some(m) => m
    case None => "GET"
  }

  /** The handler's `except`: a raised fault becomes a 500 and the store
      stays as committed before the call. */
  function Settle(a: Attempt, st: Store): Outcome
  {
    match a
    case Done(res, st') => Outcome(res, st')
    case Raised(f) => Outcome(ErrorResponse(500, ServerErrorPrefix + FaultText(f)), st)
  }

  /** `handler`. */
  function Handle(req: Request, st: Store, clock: Clock): (o: Outcome)
    requires Valid(st)
    ensures Valid(o.store)
    ensures MethodOf(req) == "OPTIONS" ==> o == Outcome(Response(200, Empty), st)
    ensures MethodOf(req) == "POST" ==> o == Settle(CreateOrder(req.body, st, clock), st)
    ensures MethodOf(req) == "GET" ==> o == Settle(GetOrders(req.query, st), st)
    ensures MethodOf(req) == "PUT" ==> o == Settle(UpdateOrder(req.body, st, clock), st)
    ensures MethodOf(req) !in {"OPTIONS", "POST", "GET", "PUT"} ==>
              o == Outcome(ErrorResponse(405, MethodNotAllowed), st)
    ensures o.response.statusCode == 500 ==>
              && o.store == st && o.response.payload.Error?
              && ServerErrorPrefix <= o.response.payload.error
    ensures o.store != st ==> MethodOf(req) in {"POST", "PUT"} && o.response.statusCode in {200, 201}
  {
    var m := MethodOf(req);
    if m == "OPTIONS" then Outcome(Response(200, Empty), st)
    else if m == "POST" then Settle(CreateOrder(req.body, st, clock), st)
    else if m == "GET" then Settle(GetOrders(req.query, st), st)
    else if m == "PUT" then Settle(UpdateOrder(req.body, st, clock), st)
    else Outcome(ErrorResponse(405, MethodNotAllowed), st)
  }

  // ---------------------------------------------------------------- lemmas

  /** The four plan labels of the catalog get one day, thirty days, 180 days
      and 365 days. */
  lemma CatalogDurations()
    ensures DurationDays("1 день") == 1
    ensures DurationDays("1 месяц") == 30
    ensures DurationDays("6 месяцев") == 180
    ensures DurationDays("1 год") == 365
  {
    DayLabel();
    MonthLabel();
    HalfYearLabel();
    YearLabel();
  }

  lemma DayLabel()
    ensures DurationDays("1 день") == 1
  {
    assert IsInfix("1 день", "1 день");
  }

  lemma MonthLabel()
    ensures DurationDays("1 месяц") == 30
  {
    var s := "1 месяц";
    assert IsInfix(s, s);
    assert !("1 день" <= s) by { assert "1 день"[2] != s[2]; }
    NotInfixWithoutHead("1 день", s[1..]);
  }

  lemma HalfYearLabel()
    ensures DurationDays("6 месяцев") == 180
  {
    var s := "6 месяцев";
    assert IsInfix(s, s);
    NotInfixWithoutHead("1 день", s);
    NotInfixWithoutHead("1 месяц", s);
  }

  lemma YearLabel()
    ensures DurationDays("1 год") == 365
  {
    var s := "1 год";
    assert IsInfix(s, s);
    assert !("1 день" <= s) by { assert "1 день"[2] != s[2]; }
    assert !("1 месяц" <= s) by { assert "1 месяц"[2] != s[2]; }
    NotInfixWithoutHead("1 день", s[1..]);
    NotInfixWithoutHead("1 месяц", s[1..]);
    NotInfixWithoutHead("6 месяцев", s);
  }

  /** The body of a status change. */
  function StatusBody(orderId: int, status: string): Body
  {
    Object(map["order_id" := Int(orderId), "status" := Str(status)])
  }

  /** There is no transition graph: from whatever status it has, an existing
      order can be set to any of the four statuses, and to nothing else. */
  lemma AnyStatusReachable(st: Store, id: int, status: string, clock: Clock)
    requires Valid(st) && id in st.orders && id != 0
    ensures var o := Handle(Request(Some("PUT"), map[], StatusBody(id, status)), st, clock);
            && (o.response.statusCode == 200 <==> IsKnown(status))
            && (IsKnown(status) ==> o.store.orders[id].status == status)
            && (!IsKnown(status) ==> o.store == st)
  {
  }

  /** Sending the same status change twice leaves every order with the status
      that sending it once gives; at the same clock the stores are identical,
      and otherwise only the update time of the changed order differs. */
  lemma UpdateIdempotent(req: Request, st: Store, clock: Clock, later: Clock)
    requires Valid(st) && MethodOf(req) == "PUT"
    ensures var once := Handle(req, st, clock);
            var twice := Handle(req, once.store, later);
            && twice.store.orders.Keys == once.store.orders.Keys
            && (forall k :: k in once.store.orders ==>
                  twice.store.orders[k] == once.store.orders[k].(updatedAt := twice.store.orders[k].updatedAt))
            && (later == clock ==> twice.store == once.store)
  {
    var once := Handle(req, st, clock);
    assert once.store == Settle(UpdateOrder(req.body, st, clock), st).store;
    assert Handle(req, once.store, later).store == Settle(UpdateOrder(req.body, once.store, later), once.store).store;
    UpdateTwice(req.body, st, clock, later);
  }

  /** The order and status a status change sets in `st`, when it sets any. */
  function UpdateTarget(body: Body, st: Store): (t: Option<(int, string)>)
    ensures t.Some? ==> t.value.0 in st.orders
  {
    match BodyFields(body)
    case Failed(_) => None
    case Fields(fields) =>
      var id, status := Field(fields, "order_id"), Field(fields, "status");
      if Truthy(id) && Truthy(status) && status.Str? && IsKnown(status.s)
         && OrderKey(id).Some? && OrderKey(id).value in st.orders
      then Some((OrderKey(id).value, status.s))
      else None
  }

  /** What `update_order` leaves behind: the store with the target's status
      set at the clock's time, or, without a target, the store unchanged. */
  lemma UpdateEffect(body: Body, st: Store, clock: Clock)
    requires Valid(st)
    ensures var t := UpdateTarget(body, st);
            Settle(UpdateOrder(body, st, clock), st).store
              == if t.Some? then SetStatus(st, t.value.0, t.value.1, clock.now) else st
  {
  }

  /** `UpdateIdempotent` for `update_order` itself. */
  lemma UpdateTwice(body: Body, st: Store, clock: Clock, later: Clock)
    requires Valid(st)
    ensures var once := Settle(UpdateOrder(body, st, clock), st).store;
            var twice := Settle(UpdateOrder(body, once, later), once).store;
            && twice.orders.Keys == once.orders.Keys
            && (forall k :: k in once.orders ==>
                  twice.orders[k] == once.orders[k].(updatedAt := twice.orders[k].updatedAt))
            && (later == clock ==> twice == once)
  {
    var once := Settle(UpdateOrder(body, st, clock), st).store;
    UpdateEffect(body, st, clock);
    assert Valid(once) && once.orders.Keys == st.orders.Keys;
    UpdateEffect(body, once, later);
    assert UpdateTarget(body, once) == UpdateTarget(body, st);
  }

}
