/** The customer page: the plan catalog, the order form with its submit
    guard and post-success reset, the keep-last-good order list, and the
    split of that list into current and past orders. */
module CustomerPage {

  import opened Wrappers
  import opened Seqs
  import opened Wire
  import opened Decimal
  import opened OrderStatus

  /** A catalog entry (descriptions and feature lists are left out). */
  datatype CatalogPlan = CatalogPlan(id: string, name: string, duration: string, price: int)

  /** `subscriptionPlans`. */
  const Catalog: seq<CatalogPlan> := [
    CatalogPlan("1day", "Пробный", "1 день", 199),
    CatalogPlan("1month", "Месячный", "1 месяц", 2990),
    CatalogPlan("6months", "Полугодовой", "6 месяцев", 15990),
    CatalogPlan("1year", "Годовой", "1 год", 29990)
  ]

  /** `DEMO_USER_ID`: the page always lists this user's orders. */
  const DemoUserId: nat := 1

  datatype Form = Form(selectedPlan: string, address: string, name: string, email: string, phone: string)

  datatype Page = Page(tab: string, form: Form, orders: seq<UserOrder>)

  /** The page on first render: home tab, no plan or address chosen, the
      demo customer's name, email and phone filled in, no orders. */
  const Initial: Page :=
    Page("home", Form("", "", "Иван Петров", "ivan.petrov@example.com", "+7 (999) 123-45-67"), [])

  /** The query string of `loadOrders`: `user_id=${DEMO_USER_ID}`. */
  function LoadQuery(): map<string, string>
  {
    map["user_id" := Render(DemoUserId)]
  }

  /** `loadOrders`: a body with `orders` replaces the list (an empty list
      too), anything else keeps the list shown before. */
  function LoadOrders(orders: seq<UserOrder>, f: Fetch<UserOrder>): (r: seq<UserOrder>)
    ensures f.Received? ==> r == f.orders
    ensures !f.Received? ==> r == orders
  {
    match f
    case Received(l) => l
    case _ => orders
  }

  /** Loads applied one after another. */
  function LoadAll(orders: seq<UserOrder>, fetches: seq<Fetch<UserOrder>>): seq<UserOrder>
    decreases |fetches|
  {
    if |fetches| == 0 then orders else LoadAll(LoadOrders(orders, fetches[0]), fetches[1..])
  }

  /** After any run of loads, the list shown is the one of the last load that
      delivered a list, or the starting list when none did. */
  lemma {:induction false} LoadKeepsLastGood(orders: seq<UserOrder>, fetches: seq<Fetch<UserOrder>>)
    ensures (forall i :: 0 <= i < |fetches| ==> !fetches[i].Received?) ==> LoadAll(orders, fetches) == orders
    ensures forall i :: 0 <= i < |fetches| && fetches[i].Received?
                        && (forall j :: i < j < |fetches| ==> !fetches[j].Received?)
                        ==> LoadAll(orders, fetches) == fetches[i].orders
    decreases |fetches|
  {
    if |fetches| > 0 {
      var rest := fetches[1..];
      LoadKeepsLastGood(LoadOrders(orders, fetches[0]), rest);
      forall i | 0 <= i < |fetches| && fetches[i].Received?
                 && (forall j :: i < j < |fetches| ==> !fetches[j].Received?)
        ensures LoadAll(orders, fetches) == fetches[i].orders
      {
        if i > 0 {
          assert rest[i - 1] == fetches[i];
          assert forall j :: i - 1 < j < |rest| ==> rest[j] == fetches[j + 1];
        } else {
          assert forall j :: 0 <= j < |rest| ==> rest[j] == fetches[j + 1];
        }
      }
    }
  }

  /** `selectedPlan && address && name && email`; the phone is not checked. */
  predicate CanSubmit(f: Form)
  {
    f.selectedPlan != "" && f.address != "" && f.name != "" && f.email != ""
  }

  /** The `POST` body `{name, email, phone, address, plan_id}`. */
  datatype OrderRequest = OrderRequest(name: string, email: string, phone: string, address: string, planId: string)

  datatype Submission = Submission(page: Page, request: Option<OrderRequest>)

  /** `handleOrderSubmit`: a form that passes the guard is sent; an ok answer
      reloads the list, clears address and plan and opens the orders tab;
      any other ending, and a form that fails the guard, changes nothing. */
  function Submit(p: Page, sent: Sent, reload: Fetch<UserOrder>): (s: Submission)
    ensures s.request.Some? <==> CanSubmit(p.form)
    ensures s.request.Some? ==>
              s.request.value == OrderRequest(p.form.name, p.form.email, p.form.phone, p.form.address, p.form.selectedPlan)
    ensures !CanSubmit(p.form) || sent != Ok ==> s.page == p
    ensures CanSubmit(p.form) && sent == Ok ==>
              && s.page.tab == "orders"
              && s.page.form == p.form.(address := "", selectedPlan := "")
              && s.page.orders == LoadOrders(p.orders, reload)
  {
    if !CanSubmit(p.form) then Submission(p, None)
    else
      var f := p.form;
      var request := OrderRequest(f.name, f.email, f.phone, f.address, f.selectedPlan);
      if sent == Ok then
        Submission(Page("orders", f.(address := "", selectedPlan := ""), LoadOrders(p.orders, reload)), Some(request))
      else Submission(p, Some(request))
  }

  /** Once an order has gone through, the form cannot be sent again until a
      plan and an address are chosen anew. */
  lemma ResetBlocksResubmit(p: Page, reload: Fetch<UserOrder>, sent: Sent, reload2: Fetch<UserOrder>)
    requires CanSubmit(p.form)
    ensures var after := Submit(p, Ok, reload).page;
            !CanSubmit(after.form) && Submit(after, sent, reload2) == Submission(after, None)
  {
  }

  /** A freshly opened page sends nothing; choosing a plan and typing an
      address is exactly what it takes, since the contact fields come
      filled in. */
  lemma FirstVisitNeedsPlanAndAddress(sent: Sent, reload: Fetch<UserOrder>, plan: string, address: string)
    ensures Submit(Initial, sent, reload) == Submission(Initial, None)
    ensures CanSubmit(Initial.form.(selectedPlan := plan, address := address)) <==> plan != "" && address != ""
  {
  }

  function IsCurrent(o: UserOrder): bool
  {
    o.status != Completed
  }

  function IsPast(o: UserOrder): bool
  {
    o.status == Completed
  }

  /** The "my orders" tab: every order that is not completed. */
  function CurrentView(l: seq<UserOrder>): seq<UserOrder>
  {
    Filter(l, IsCurrent)
  }

  /** The "history" tab: the completed orders. */
  function HistoryView(l: seq<UserOrder>): seq<UserOrder>
  {
    Filter(l, IsPast)
  }

  /** The two tabs split the list: together they hold every order exactly as
      often as the list does, and no order appears on both. */
  lemma ViewsPartition(l: seq<UserOrder>)
    ensures multiset(CurrentView(l)) + multiset(HistoryView(l)) == multiset(l)
    ensures |CurrentView(l)| + |HistoryView(l)| == |l|
    ensures forall o :: !(o in CurrentView(l) && o in HistoryView(l))
  {
    FilterMultiset(l, IsCurrent);
    FilterMultiset(l, IsPast);
    assert multiset(CurrentView(l)) + multiset(HistoryView(l)) == multiset(l);
    assert |multiset(CurrentView(l))| == |CurrentView(l)|;
    forall o ensures !(o in CurrentView(l) && o in HistoryView(l)) {
      FilterMembership(l, IsCurrent, o);
      FilterMembership(l, IsPast, o);
    }
  }

  /** The empty-state card appears when the current view is empty. */
  predicate ShowsEmptyState(l: seq<UserOrder>)
  {
    |CurrentView(l)| == 0
  }

  /** The empty-state card appears exactly when every order is completed. */
  lemma EmptyStateIffAllCompleted(l: seq<UserOrder>)
    ensures ShowsEmptyState(l) <==> forall i :: 0 <= i < |l| ==> l[i].status == Completed
  {
    if !ShowsEmptyState(l) {
      var o := CurrentView(l)[0];
      FilterMembership(l, IsCurrent, o);
    } else {
      forall i | 0 <= i < |l| ensures l[i].status == Completed {
        FilterMembership(l, IsCurrent, l[i]);
      }
    }
  }

}
