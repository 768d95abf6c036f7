/** The admin page's `calculateStats`: order counts per status and revenue
    over every order that is not cancelled, all derived from one order list. */
module Stats {

  import opened Seqs
  import opened Wire
  import opened OrderStatus

  datatype Stats = Stats(total: int, pending: int, active: int, completed: int, revenue: int)

  /** The snapshot the page starts with, before the first load. */
  const Zero: Stats := Stats(0, 0, 0, 0, 0)

  /** `o => o.status === s`. */
  function HasStatus(s: string): AdminOrder -> bool
  {
    (o: AdminOrder) => o.status == s
  }

  /** `o => o.status !== 'cancelled'`. */
  function NotCancelled(o: AdminOrder): bool
  {
    o.status != Cancelled
  }

  function Price(o: AdminOrder): int
  {
    o.price
  }

  /** `ordersData.filter(o => o.status === s).length`. */
  function CountStatus(l: seq<AdminOrder>, s: string): nat
  {
    |Filter(l, HasStatus(s))|
  }

  /** `ordersData.filter(o => o.status !== 'cancelled').reduce((sum, o) => sum + o.price, 0)`. */
  function Revenue(l: seq<AdminOrder>): int
  {
    Sum(Map(Filter(l, NotCancelled), Price))
  }

  /** The snapshot `calculateStats` builds from a list. */
  function StatsOf(l: seq<AdminOrder>): Stats
  {
    Stats(|l|, CountStatus(l, Pending), CountStatus(l, Active), CountStatus(l, Completed), Revenue(l))
  }

  /** What one order adds to the revenue: its price unless it is cancelled. */
  function Contribution(o: AdminOrder): int
  {
    if o.status != Cancelled then o.price else 0
  }

  /** Appending an order adds one to exactly the count of its own status. */
  lemma CountSnoc(l: seq<AdminOrder>, o: AdminOrder, s: string)
    ensures CountStatus(l + [o], s) == CountStatus(l, s) + (if o.status == s then 1 else 0)
  {
    FilterSnoc(l, o, HasStatus(s));
  }

  /** Appending an order adds its contribution to the revenue. */
  lemma RevenueSnoc(l: seq<AdminOrder>, o: AdminOrder)
    ensures Revenue(l + [o]) == Revenue(l) + Contribution(o)
  {
    FilterSnoc(l, o, NotCancelled);
    var kept := Filter(l, NotCancelled);
    if NotCancelled(o) {
      assert Map(kept + [o], Price) == Map(kept, Price) + [o.price];
      assert (Map(kept, Price) + [o.price])[..|Map(kept, Price)|] == Map(kept, Price);
    } else {
      assert Filter(l + [o], NotCancelled) == kept + [] == kept;
    }
  }

  /** Appending an order adds one to the total and to the count of its own
      status, and adds its contribution to the revenue. */
  lemma StatsSnoc(l: seq<AdminOrder>, o: AdminOrder)
    ensures var before, after := StatsOf(l), StatsOf(l + [o]);
            after == Stats(before.total + 1,
                           before.pending + (if o.status == Pending then 1 else 0),
                           before.active + (if o.status == Active then 1 else 0),
                           before.completed + (if o.status == Completed then 1 else 0),
                           before.revenue + Contribution(o))
  {
    CountSnoc(l, o, Pending);
    CountSnoc(l, o, Active);
    CountSnoc(l, o, Completed);
    RevenueSnoc(l, o);
  }

  /** A status count is the number of positions holding that status. */
  lemma CountIsPositionCount(l: seq<AdminOrder>, s: string)
    ensures CountStatus(l, s) == |set i: nat | i < |l| && l[i].status == s|
  {
    FilterLengthCountsPositions(l, HasStatus(s));
    assert MatchingPositions(l, HasStatus(s), |l|) == set i: nat | i < |l| && l[i].status == s;
  }

  /** Independent statement of the revenue: the sum, over the whole list, of
      each order's price masked to zero when it is cancelled. */
  lemma {:induction false} RevenueIsMaskedSum(l: seq<AdminOrder>)
    ensures Revenue(l) == Sum(Map(l, Contribution))
    decreases |l|
  {
    if |l| > 0 {
      var init, last := l[..|l| - 1], l[|l| - 1];
      assert l == init + [last];
      RevenueIsMaskedSum(init);
      RevenueSnoc(init, last);
      assert Map(l, Contribution)[..|l| - 1] == Map(init, Contribution);
    }
  }

  /** Setting one order to `cancelled` lowers the revenue by exactly what that
      order contributed: its price, or nothing if it was already cancelled. */
  lemma CancellingRemovesContribution(l: seq<AdminOrder>, i: nat)
    requires i < |l|
    ensures Revenue(l[i := l[i].(status := Cancelled)]) == Revenue(l) - Contribution(l[i])
  {
    var l' := l[i := l[i].(status := Cancelled)];
    RevenueIsMaskedSum(l);
    RevenueIsMaskedSum(l');
    assert Map(l', Contribution) == Map(l, Contribution)[i := 0];
    SumUpdate(Map(l, Contribution), i, 0);
  }

  /** Cancelling an order whose price is not negative never increases revenue. */
  lemma CancellingNeverIncreasesRevenue(l: seq<AdminOrder>, i: nat)
    requires i < |l| && l[i].price >= 0
    ensures Revenue(l[i := l[i].(status := Cancelled)]) <= Revenue(l)
  {
    CancellingRemovesContribution(l, i);
  }

  /** Every status of the list is one of the three that are counted. */
  ghost predicate OnlyCountedStatuses(l: seq<AdminOrder>)
  {
    forall i :: 0 <= i < |l| ==> l[i].status in {Pending, Active, Completed}
  }

  /** The three counts never exceed the total, and they reach it exactly when
      no order carries any other status (`cancelled` or an unknown one). */
  lemma {:induction false} CountsBoundedByTotal(l: seq<AdminOrder>)
    ensures CountStatus(l, Pending) + CountStatus(l, Active) + CountStatus(l, Completed) <= |l|
    ensures CountStatus(l, Pending) + CountStatus(l, Active) + CountStatus(l, Completed) == |l|
            <==> OnlyCountedStatuses(l)
    decreases |l|
  {
    if |l| > 0 {
      var init, last := l[..|l| - 1], l[|l| - 1];
      assert l == init + [last];
      CountsBoundedByTotal(init);
      CountSnoc(init, last, Pending);
      CountSnoc(init, last, Active);
      CountSnoc(init, last, Completed);
      if OnlyCountedStatuses(l) {
        assert OnlyCountedStatuses(init) by {
          forall i | 0 <= i < |init| ensures init[i].status in {Pending, Active, Completed} {
            assert init[i] == l[i];
          }
        }
      }
      if !OnlyCountedStatuses(init) {
        var i :| 0 <= i < |init| && init[i].status !in {Pending, Active, Completed};
        assert l[i] == init[i];
      }
      if last.status !in {Pending, Active, Completed} {
        assert l[|l| - 1] == last;
      }
    } else {
      assert OnlyCountedStatuses(l);
    }
  }

  /** A single left-to-right pass computing the same snapshot as the
      filter-and-reduce definition. */
  method CalculateStats(l: seq<AdminOrder>) returns (st: Stats)
    ensures st.total == |l|
    ensures st.pending == CountStatus(l, Pending)
    ensures st.active == CountStatus(l, Active)
    ensures st.completed == CountStatus(l, Completed)
    ensures st.revenue == Revenue(l)
  {
    var pending, active, completed, revenue := 0, 0, 0, 0;
    for i := 0 to |l|
      invariant pending == CountStatus(l[..i], Pending)
      invariant active == CountStatus(l[..i], Active)
      invariant completed == CountStatus(l[..i], Completed)
      invariant revenue == Revenue(l[..i])
    {
      var o := l[i];
      assert l[..i + 1] == l[..i] + [o];
      CountSnoc(l[..i], o, Pending);
      CountSnoc(l[..i], o, Active);
      CountSnoc(l[..i], o, Completed);
      RevenueSnoc(l[..i], o);
      if o.status == Pending {
        pending := pending + 1;
      } else if o.status == Active {
        active := active + 1;
      } else if o.status == Completed {
        completed := completed + 1;
      }
      if o.status != Cancelled {
        revenue := revenue + o.price;
      }
    }
    assert l[..|l|] == l;
    st := Stats(|l|, pending, active, completed, revenue);
  }

  /** An order that matters to the statistics only by price and status. */
  function Sample(price: int, status: string): AdminOrder
  {
    AdminOrder(0, Null, Null, Null, Null, "", price, status, 0, 0, 0)
  }

  /** The worked example: a pending 199, an active 2990 and a cancelled 990
      give three orders, one pending, one active, none completed and 3189 of
      revenue. */
  lemma WorkedExample()
    ensures StatsOf([Sample(199, Pending), Sample(2990, Active), Sample(990, Cancelled)])
            == Stats(3, 1, 1, 0, 3189)
  {
    var a, b, c := Sample(199, Pending), Sample(2990, Active), Sample(990, Cancelled);
    StatsSnoc([], a);
    assert StatsOf([a]) == Stats(1, 1, 0, 0, 199) by { assert [] + [a] == [a]; }
    StatsSnoc([a], b);
    assert StatsOf([a, b]) == Stats(2, 1, 1, 0, 3189) by { assert [a] + [b] == [a, b]; }
    StatsSnoc([a, b], c);
    assert [a, b] + [c] == [a, b, c];
  }

}
