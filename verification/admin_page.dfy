/** The administrator page: the order list and the statistics shown above
    it, the reload-on-success status change, and the status badge. */
module AdminPage {

  import opened Wrappers
  import opened Seqs
  import opened Wire
  import opened OrderStatus
  import opened Stats

  /** The page's `orders` and `stats` state. */
  datatype Page = Page(orders: seq<AdminOrder>, stats: Stats)

  const Initial: Page := Page([], Zero)

  /** The statistics describe exactly the list on screen. */
  ghost predicate Consistent(p: Page)
  {
    p.stats == StatsOf(p.orders)
  }

  /** `loadOrders`: a body with `orders` replaces the list and recomputes the
      statistics from it; any other ending keeps both as they were. */
  function LoadOrders(p: Page, f: Fetch<AdminOrder>): (p': Page)
    ensures f.Received? ==> p'.orders == f.orders && Consistent(p')
    ensures !f.Received? ==> p' == p
  {
    match f
    case Received(l) => Page(l, StatsOf(l))
    case _ => p
  }

  /** The `PUT` body `{order_id, status}`. */
  datatype StatusChange = StatusChange(orderId: int, status: string)

  datatype Step = Step(page: Page, request: StatusChange, reloaded: bool)

  /** `updateOrderStatus`: always sends the change; reloads (once) only when
      the answer is ok, and otherwise leaves list and statistics alone. */
  function UpdateOrderStatus(p: Page, orderId: int, newStatus: string, sent: Sent, reload: Fetch<AdminOrder>): (s: Step)
    ensures s.request == StatusChange(orderId, newStatus)
    ensures s.reloaded <==> sent == Ok
    ensures s.reloaded ==> s.page == LoadOrders(p, reload)
    ensures !s.reloaded ==> s.page == p
  {
    if sent == Ok then Step(LoadOrders(p, reload), StatusChange(orderId, newStatus), true)
    else Step(p, StatusChange(orderId, newStatus), false)
  }

  /** What the administrator can do on the page. */
  datatype Action =
    | Reload(fetch: Fetch<AdminOrder>)
    | ChangeStatus(orderId: int, status: string, sent: Sent, reload: Fetch<AdminOrder>)

  function Apply(p: Page, a: Action): Page
  {
    match a
    case Reload(f) => LoadOrders(p, f)
    case ChangeStatus(id, s, sent, f) => UpdateOrderStatus(p, id, s, sent, f).page
  }

  function Run(p: Page, actions: seq<Action>): Page
    decreases |actions|
  {
    if |actions| == 0 then p else Run(Apply(p, actions[0]), actions[1..])
  }

  /** Whatever the administrator does, the statistics on screen are the
      statistics of the list on screen: there is no other state behind them. */
  lemma {:induction false} StatsFollowOrders(p: Page, actions: seq<Action>)
    requires Consistent(p)
    ensures Consistent(Run(p, actions))
    decreases |actions|
  {
    if |actions| > 0 {
      StatsFollowOrders(Apply(p, actions[0]), actions[1..]);
    }
  }

  /** The page starts consistent: no orders, all statistics zero. */
  lemma InitialConsistent()
    ensures Consistent(Initial)
  {
    assert Filter([], HasStatus(Pending)) == [];
  }

  datatype Variant = Default | Secondary | Outline | Destructive

  datatype BadgeConfig = BadgeConfig(variant: Variant, className: string)

  /** The `variants` table of `getStatusBadge`. */
  function Variants(status: string): Option<BadgeConfig>
  {
    if status == Pending then Some(BadgeConfig(Secondary, ""))
    else if status == Active then Some(BadgeConfig(Default, "bg-green-500"))
    else if status == Completed then Some(BadgeConfig(Outline, ""))
    else if status == Cancelled then Some(BadgeConfig(Destructive, ""))
    else None
  }

  datatype Badge = Badge(config: BadgeConfig, text: string)

  /** `getStatusBadge`: the configuration of the status, falling back to the
      pending one, and the label of the status (none for an unknown status). */
  function StatusBadge(status: string): (b: Badge)
    ensures IsKnown(status) <==> b.text != ""
    ensures Variants(status).Some? ==> b.config == Variants(status).value
    ensures !IsKnown(status) ==> b.config == Variants(Pending).value
  {
    var config := match Variants(status) case Some(c) => c case None => Variants(Pending).value;
    var text :=
      if status == Pending then "Ожидает"
      else if status == Active then "Активна"
      else if status == Completed then "Завершён"
      else if status == Cancelled then "Отменён"
      else "";
    Badge(config, text)
  }

  /** Each known status gets a badge of its own: different statuses never
      share a variant or a label. */
  lemma BadgesDistinguishStatuses(s: string, t: string)
    requires IsKnown(s) && IsKnown(t) && s != t
    ensures StatusBadge(s).config.variant != StatusBadge(t).config.variant
    ensures StatusBadge(s).text != StatusBadge(t).text
  {
  }

  /** The items of the status selector. */
  const Selectable: seq<string> := [Pending, Active, Completed, Cancelled]

  /** The selector offers exactly the statuses the endpoint accepts, each once. */
  lemma SelectableIsWhitelist()
    ensures forall s :: s in Selectable <==> IsKnown(s)
    ensures forall i, j :: 0 <= i < j < |Selectable| ==> Selectable[i] != Selectable[j]
  {
  }

}
