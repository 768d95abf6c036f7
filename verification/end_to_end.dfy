/** The pages talking to the endpoint: what each page sends, read as the
    endpoint's request, and what the endpoint answers, read as the page's
    fetch result. */
module EndToEnd {

  import opened Wrappers
  import opened Wire
  import opened Decimal
  import opened OrderStatus
  import opened OrderStore
  import opened Listing
  import opened OrdersApi
  import Stats
  import AdminPage
  import CustomerPage

  /** `response.ok`. */
  function SentOf(r: Response): Sent
  {
    if 200 <= r.statusCode < 300 then Ok else NotOk
  }

  /** The administrator page's view of an answer: its `orders`, if any. */
  function AdminFetch(r: Response): Fetch<AdminOrder>
  {
    if r.payload.AdminOrders? then Received(r.payload.adminOrders) else NoOrders
  }

  /** The customer page's view of an answer: its `orders`, if any. */
  function UserFetch(r: Response): Fetch<UserOrder>
  {
    if r.payload.UserOrders? then Received(r.payload.userOrders) else NoOrders
  }

  /** The administrator page's `GET ?admin=true`. */
  function AdminGet(): Request
  {
    Request(Some("GET"), map["admin" := "true"], NoBody)
  }

  /** The customer page's `POST` of the order form. */
  function OrderPost(q: CustomerPage.OrderRequest): Request
  {
    Request(Some("POST"), map[], Object(map[
      "name" := Str(q.name), "email" := Str(q.email), "phone" := Str(q.phone),
      "address" := Str(q.address), "plan_id" := Str(q.planId)]))
  }

  /** The administrator page's `PUT` of a status change. */
  function StatusPut(c: AdminPage.StatusChange): Request
  {
    Request(Some("PUT"), map[], StatusBody(c.orderId, c.status))
  }

  /** After loading from the endpoint, the administrator page shows every
      order of the store once and counts all of them. */
  lemma AdminSeesEveryOrder(st: Store, clock: Clock, p: AdminPage.Page)
    requires Valid(st)
    ensures var page := AdminPage.LoadOrders(p, AdminFetch(Handle(AdminGet(), st, clock).response));
            && page.stats.total == |st.orders|
            && page.stats == Stats.StatsOf(page.orders)
            && forall id :: id in st.orders ==> AdminRow(st, id) in page.orders
  {
    var rows := AdminListing(st);
    AdminListingSize(st);
    forall id | id in st.orders ensures AdminRow(st, id) in rows {
      assert multiset(rows)[AdminRow(st, id)] == 1;
    }
  }

  /** A status picked in the selector for an existing order is accepted by the
      endpoint, which changes that order's status and update time and nothing
      else; the page reloads once, and the reloaded list shows the order with
      its new status. */
  lemma StatusChangeShowsAfterReload(st: Store, clock: Clock, p: AdminPage.Page, id: int, status: string)
    requires Valid(st) && id in st.orders && id != 0
    requires status in AdminPage.Selectable
    ensures
      var put := Handle(StatusPut(AdminPage.StatusChange(id, status)), st, clock);
      var get := Handle(AdminGet(), put.store, clock);
      var step := AdminPage.UpdateOrderStatus(p, id, status, SentOf(put.response), AdminFetch(get.response));
      && put.response.statusCode == 200
      && step.reloaded
      && put.store == SetStatus(st, id, status, clock.now)
      && exists i :: 0 <= i < |step.page.orders| && step.page.orders[i].id == id && step.page.orders[i].status == status
  {
    var put := Handle(StatusPut(AdminPage.StatusChange(id, status)), st, clock);
    StatusPutAnswer(st, clock, id, status);
    var get := Handle(AdminGet(), put.store, clock);
    var page := AdminPage.LoadOrders(p, AdminFetch(get.response));
    ReloadShowsOrder(put.store, clock, p, id);
    assert AdminRow(put.store, id) in page.orders;
    var step := AdminPage.UpdateOrderStatus(p, id, status, SentOf(put.response), AdminFetch(get.response));
    assert step.page == page;
    var i :| 0 <= i < |page.orders| && page.orders[i] == AdminRow(put.store, id);
    assert page.orders[i].id == id && page.orders[i].status == status;
  }

  /** After a reload from the endpoint, an order of the store is on screen. */
  lemma ReloadShowsOrder(st: Store, clock: Clock, p: AdminPage.Page, id: int)
    requires Valid(st) && id in st.orders
    ensures AdminRow(st, id) in AdminPage.LoadOrders(p, AdminFetch(Handle(AdminGet(), st, clock).response)).orders
  {
  }

  /** The endpoint's answer to a selector change of an existing order. */
  lemma StatusPutAnswer(st: Store, clock: Clock, id: int, status: string)
    requires Valid(st) && id in st.orders && id != 0
    requires status in AdminPage.Selectable
    ensures Handle(StatusPut(AdminPage.StatusChange(id, status)), st, clock)
            == Outcome(Response(200, Updated), SetStatus(st, id, status, clock.now))
  {
  }

  /** A form that passes the page's guard never fails the endpoint's
      required-field check, whatever the phone; the order is created, pending,
      exactly when the chosen plan exists, and otherwise the endpoint answers
      404 and stores nothing. */
  lemma GuardedFormIsAccepted(p: CustomerPage.Page, sent: Sent, reload: Fetch<UserOrder>, st: Store, clock: Clock)
    requires Valid(st) && CustomerPage.CanSubmit(p.form)
    ensures
      var q := CustomerPage.Submit(p, sent, reload).request.value;
      var o := Handle(OrderPost(q), st, clock);
      && o.response.statusCode != 400
      && (o.response.statusCode == 201 <==> p.form.selectedPlan in st.plans)
      && (o.response.statusCode == 201 ==>
            var id := o.response.payload.orderId;
            id in o.store.orders && id !in st.orders && o.store.orders[id].status == Pending)
      && (p.form.selectedPlan !in st.plans ==> o.response.statusCode == 404 && o.store == st)
  {
    var f := p.form;
    var q := CustomerPage.OrderRequest(f.name, f.email, f.phone, f.address, f.selectedPlan);
    assert CustomerPage.Submit(p, sent, reload).request.value == q;
    var req := OrderPost(q);
    var fields := BodyFields(req.body).fields;
    assert BodyFields(req.body).Fields? && Field(fields, "plan_id") == Str(f.selectedPlan);
    assert HasRequiredFields(fields);
    assert Handle(req, st, clock) == Settle(CreateOrder(req.body, st, clock), st);
  }

  /** The customer page's load asks for user 1, the endpoint reads the id
      back as 1, and the page then shows exactly user 1's orders. */
  lemma CustomerSeesDemoUserOrders(st: Store, clock: Clock, orders: seq<UserOrder>)
    requires Valid(st)
    ensures
      var o := Handle(Request(Some("GET"), CustomerPage.LoadQuery(), NoBody), st, clock);
      var shown := CustomerPage.LoadOrders(orders, UserFetch(o.response));
      && o.response.statusCode == 200
      && forall r :: multiset(shown)[r] ==
                       if r.id in st.orders && st.orders[r.id].userId == CustomerPage.DemoUserId
                          && r == UserRow(st, r.id)
                       then 1 else 0
  {
    var q := CustomerPage.LoadQuery();
    ParseRender(CustomerPage.DemoUserId);
    assert Param(q, "admin") == "" && Param(q, "user_id") == Render(CustomerPage.DemoUserId);
    assert GetOrders(q, st).response.payload.UserOrders?;
  }

  /** The catalog's plans get 1, 30, 180 and 365 days respectively. */
  lemma CatalogPlanDays()
    ensures |CustomerPage.Catalog| == 4
    ensures DurationDays(CustomerPage.Catalog[0].duration) == 1
    ensures DurationDays(CustomerPage.Catalog[1].duration) == 30
    ensures DurationDays(CustomerPage.Catalog[2].duration) == 180
    ensures DurationDays(CustomerPage.Catalog[3].duration) == 365
  {
    var c := CustomerPage.Catalog;
    assert c[0].duration == "1 день" && c[1].duration == "1 месяц";
    assert c[2].duration == "6 месяцев" && c[3].duration == "1 год";
    DayLabel();
    MonthLabel();
    HalfYearLabel();
    YearLabel();
  }

}
