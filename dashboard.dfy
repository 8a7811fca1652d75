/** The admin dashboard (app/admin/dashboard/page.tsx): today's and this month's sales,
    the ten most recent orders, resetting the shop's data and logging out. */
module Dashboard {
  import opened Wrappers
  import opened Seqs
  import opened Entities
  import opened Storage

  /** Revenue, assumed profit and order count of one period. */
  datatype Sales = Sales(revenue: real, profit: real, orders: nat)

  datatype SalesData = SalesData(today: Sales, monthly: Sales)

  /** `order.total || 0`. */
  function OrderTotal(o: Order): real {
    o.total.GetOr(0.0)
  }

  /** The summed totals of the orders. */
  function Revenue(orders: seq<Order>): real {
    if orders == [] then 0.0 else Revenue(orders[..|orders| - 1]) + OrderTotal(orders[|orders| - 1])
  }

  function PlacedOn(day: CalendarDate): Order -> bool {
    (o: Order) => o.date == day
  }

  function PlacedInMonthOf(day: CalendarDate): Order -> bool {
    (o: Order) => o.date.month == day.month && o.date.year == day.year
  }

  /** The orders placed on the given calendar day, in ledger order. */
  function TodayOrders(orders: seq<Order>, today: CalendarDate): seq<Order> {
    Filter(orders, PlacedOn(today))
  }

  /** The orders placed in the month and year of the given day, in ledger order. */
  function MonthOrders(orders: seq<Order>, today: CalendarDate): seq<Order> {
    Filter(orders, PlacedInMonthOf(today))
  }

  /** The flat profit margin the dashboard assumes on every sale. */
  const ProfitMargin: real := 0.3

  /** `loadSalesData`: one pass over the ledger accumulating revenue, profit and count for
      today and for the current month. */
  method LoadSalesData(orders: seq<Order>, today: CalendarDate) returns (data: SalesData)
    ensures data.today.revenue == Revenue(TodayOrders(orders, today))
    ensures data.today.orders == |TodayOrders(orders, today)|
    ensures data.today.profit == ProfitMargin * data.today.revenue
    ensures data.monthly.revenue == Revenue(MonthOrders(orders, today))
    ensures data.monthly.orders == |MonthOrders(orders, today)|
    ensures data.monthly.profit == ProfitMargin * data.monthly.revenue
  {
    var todayRevenue, todayProfit, todayOrders := 0.0, 0.0, 0;
    var monthlyRevenue, monthlyProfit, monthlyOrders := 0.0, 0.0, 0;
    for i := 0 to |orders|
      invariant todayRevenue == Revenue(TodayOrders(orders[..i], today))
      invariant todayOrders == |TodayOrders(orders[..i], today)|
      invariant todayProfit == ProfitMargin * todayRevenue
      invariant monthlyRevenue == Revenue(MonthOrders(orders[..i], today))
      invariant monthlyOrders == |MonthOrders(orders[..i], today)|
      invariant monthlyProfit == ProfitMargin * monthlyRevenue
    {
      var order := orders[i];
      var orderTotal := OrderTotal(order);
      var orderProfit := orderTotal * ProfitMargin;
      assert orders[..i + 1] == orders[..i] + [order];
      RevenueFilterSnoc(orders[..i], order, PlacedOn(today));
      RevenueFilterSnoc(orders[..i], order, PlacedInMonthOf(today));
      if order.date == today {
        todayRevenue := todayRevenue + orderTotal;
        todayProfit := todayProfit + orderProfit;
        todayOrders := todayOrders + 1;
      }
      if order.date.month == today.month && order.date.year == today.year {
        monthlyRevenue := monthlyRevenue + orderTotal;
        monthlyProfit := monthlyProfit + orderProfit;
        monthlyOrders := monthlyOrders + 1;
      }
    }
    assert orders[..|orders|] == orders;
    data := SalesData(Sales(todayRevenue, todayProfit, todayOrders),
                      Sales(monthlyRevenue, monthlyProfit, monthlyOrders));
  }

  lemma RevenueSnoc(orders: seq<Order>, o: Order)
    ensures Revenue(orders + [o]) == Revenue(orders) + OrderTotal(o)
  {
    assert (orders + [o])[..|orders|] == orders;
  }

  /** One more order adds its total to a filtered revenue exactly when it passes the filter. */
  lemma RevenueFilterSnoc(orders: seq<Order>, o: Order, keep: Order -> bool)
    ensures Revenue(Filter(orders + [o], keep)) ==
      Revenue(Filter(orders, keep)) + (if keep(o) then OrderTotal(o) else 0.0)
    ensures |Filter(orders + [o], keep)| == |Filter(orders, keep)| + (if keep(o) then 1 else 0)
  {
    assert (orders + [o])[..|orders|] == orders;
    var f := Filter(orders, keep);
    if keep(o) {
      RevenueSnoc(f, o);
    } else {
      assert f + [] == f;
    }
  }

  /** Filtering with a stronger predicate never yields more revenue, when totals are not negative. */
  lemma {:induction false} RevenueMonotone(orders: seq<Order>, p: Order -> bool, q: Order -> bool)
    requires forall i :: 0 <= i < |orders| ==> OrderTotal(orders[i]) >= 0.0
    requires forall i :: 0 <= i < |orders| && p(orders[i]) ==> q(orders[i])
    ensures Revenue(Filter(orders, p)) <= Revenue(Filter(orders, q))
    decreases |orders|
  {
    if orders != [] {
      var n := |orders|;
      var init, o := orders[..n - 1], orders[n - 1];
      assert orders == init + [o];
      RevenueMonotone(init, p, q);
      RevenueFilterSnoc(init, o, p);
      RevenueFilterSnoc(init, o, q);
    }
  }

  /** Every order of today is an order of this month: today's orders are exactly this
      month's orders placed today, so today never counts more orders, nor (with
      non-negative totals) more revenue or profit, than the month. */
  lemma TodayWithinMonth(orders: seq<Order>, today: CalendarDate)
    ensures Filter(MonthOrders(orders, today), PlacedOn(today)) == TodayOrders(orders, today)
    ensures |TodayOrders(orders, today)| <= |MonthOrders(orders, today)|
    ensures (forall i :: 0 <= i < |orders| ==> OrderTotal(orders[i]) >= 0.0) ==>
      Revenue(TodayOrders(orders, today)) <= Revenue(MonthOrders(orders, today))
  {
    FilterFilter(orders, PlacedOn(today), PlacedInMonthOf(today));
    FilterMonotone(orders, PlacedOn(today), PlacedInMonthOf(today));
    if forall i :: 0 <= i < |orders| ==> OrderTotal(orders[i]) >= 0.0 {
      RevenueMonotone(orders, PlacedOn(today), PlacedInMonthOf(today));
    }
  }

  // ---------------------------------------------------------------------------
  // Recent orders

  /** The ledger read newest first: timestamps never increase. */
  predicate NewestFirst(orders: seq<Order>) {
    forall i, j :: 0 <= i < j < |orders| ==> orders[i].timestamp >= orders[j].timestamp
  }

  /** Exchanges two entries of an array and nothing else. */
  method Swap(a: array<Order>, i: nat, j: nat)
    requires i < a.Length && j < a.Length
    modifies a
    ensures a[i] == old(a[j]) && a[j] == old(a[i])
    ensures forall k :: 0 <= k < a.Length && k != i && k != j ==> a[k] == old(a[k])
    ensures multiset(a[..]) == old(multiset(a[..]))
  {
    a[i], a[j] := a[j], a[i];
  }

  /** `x` placed into a newest-first ledger after every order at least as recent as it:
      where one pass of the in-place sort moves it. */
  function Insert(sorted: seq<Order>, x: Order): (r: seq<Order>)
    ensures |r| == |sorted| + 1
  {
    if sorted == [] || sorted[|sorted| - 1].timestamp >= x.timestamp then sorted + [x]
    else Insert(sorted[..|sorted| - 1], x) + [sorted[|sorted| - 1]]
  }

  /** The ledger sorted newest first, inserting the orders one by one in ledger order. */
  function SortedNewestFirst(orders: seq<Order>): (r: seq<Order>)
    ensures |r| == |orders|
  {
    if orders == [] then [] else Insert(SortedNewestFirst(orders[..|orders| - 1]), orders[|orders| - 1])
  }

  /** Inserting adds exactly the one order. */
  lemma {:induction false} InsertPermutes(sorted: seq<Order>, x: Order)
    ensures multiset(Insert(sorted, x)) == multiset(sorted) + multiset{x}
    decreases |sorted|
  {
    if !(sorted == [] || sorted[|sorted| - 1].timestamp >= x.timestamp) {
      var n := |sorted|;
      InsertPermutes(sorted[..n - 1], x);
      assert sorted == sorted[..n - 1] + [sorted[n - 1]];
    }
  }

  /** Appending an order no newer than any order of a newest-first ledger keeps it newest first. */
  lemma SnocSorted(s: seq<Order>, x: Order)
    requires NewestFirst(s)
    requires forall i :: 0 <= i < |s| ==> s[i].timestamp >= x.timestamp
    ensures NewestFirst(s + [x])
  {
  }

  /** Inserting into a newest-first ledger keeps it newest first. */
  lemma {:induction false} InsertSorted(sorted: seq<Order>, x: Order)
    requires NewestFirst(sorted)
    ensures NewestFirst(Insert(sorted, x))
    decreases |sorted|
  {
    var n := |sorted|;
    if sorted == [] || sorted[n - 1].timestamp >= x.timestamp {
      SnocSorted(sorted, x);
    } else {
      var init, last := sorted[..n - 1], sorted[n - 1];
      var r := Insert(init, x);
      assert Insert(sorted, x) == r + [last];
      InsertSorted(init, x);
      InsertPermutes(init, x);
      forall i | 0 <= i < |r| ensures r[i].timestamp >= last.timestamp {
        assert r[i] in multiset(init) + multiset{x};
        if r[i] != x {
          var k :| 0 <= k < |init| && init[k] == r[i];
        }
      }
      SnocSorted(r, last);
    }
  }

  /** The sorted ledger is newest first and holds exactly the ledger's orders. */
  lemma {:induction false} SortedNewestFirstSpec(orders: seq<Order>)
    ensures NewestFirst(SortedNewestFirst(orders))
    ensures multiset(SortedNewestFirst(orders)) == multiset(orders)
    decreases |orders|
  {
    if orders != [] {
      var n := |orders|;
      SortedNewestFirstSpec(orders[..n - 1]);
      InsertSorted(SortedNewestFirst(orders[..n - 1]), orders[n - 1]);
      InsertPermutes(SortedNewestFirst(orders[..n - 1]), orders[n - 1]);
      assert orders == orders[..n - 1] + [orders[n - 1]];
    }
  }

  function HasTime(t: nat): Order -> bool {
    (o: Order) => o.timestamp == t
  }

  /** Moving `x` in front of a strictly older order does not reorder the orders of any one time. */
  lemma PassOlder(r: seq<Order>, init: seq<Order>, last: Order, x: Order, t: nat)
    requires last.timestamp < x.timestamp
    requires Filter(r, HasTime(t)) == Filter(init, HasTime(t)) + Filter([x], HasTime(t))
    ensures Filter(r + [last], HasTime(t)) == Filter(init + [last], HasTime(t)) + Filter([x], HasTime(t))
  {
    var keep := HasTime(t);
    var a, xs, ls := Filter(init, keep), Filter([x], keep), Filter([last], keep);
    assert xs == [] || ls == [] by {
      FilterSingleton(x, keep);
      FilterSingleton(last, keep);
    }
    FilterConcat(r, [last], keep);
    FilterConcat(init, [last], keep);
    assert a + xs + ls == a + ls + xs;
  }

  /** Inserting never passes an order of the same time: the orders of any one time keep
      their order, with the inserted one last. */
  lemma {:induction false} InsertStable(sorted: seq<Order>, x: Order, t: nat)
    requires NewestFirst(sorted)
    ensures Filter(Insert(sorted, x), HasTime(t)) == Filter(sorted, HasTime(t)) + Filter([x], HasTime(t))
    decreases |sorted|
  {
    var n := |sorted|;
    if sorted == [] || sorted[n - 1].timestamp >= x.timestamp {
      FilterConcat(sorted, [x], HasTime(t));
    } else {
      var init, last := sorted[..n - 1], sorted[n - 1];
      assert sorted == init + [last];
      assert Insert(sorted, x) == Insert(init, x) + [last];
      assert NewestFirst(init);
      InsertStable(init, x, t);
      PassOlder(Insert(init, x), init, last, x, t);
    }
  }

  /** The sort is stable: for every time, the orders of that time appear in the sorted
      ledger in their ledger order. */
  lemma {:induction false} SortedNewestFirstStable(orders: seq<Order>, t: nat)
    ensures Filter(SortedNewestFirst(orders), HasTime(t)) == Filter(orders, HasTime(t))
    decreases |orders|
  {
    if orders != [] {
      var n := |orders|;
      var init, x := orders[..n - 1], orders[n - 1];
      assert orders == init + [x];
      SortedNewestFirstStable(init, t);
      SortedNewestFirstSpec(init);
      InsertStable(SortedNewestFirst(init), x, t);
      FilterConcat(init, [x], HasTime(t));
    }
  }

  /** Where `Insert` puts `x`: after the orders up to `j`, when those after `j` are all
      strictly older than `x` and the one before `j` (if any) is not. */
  lemma {:induction false} InsertAt(sorted: seq<Order>, x: Order, j: nat)
    requires j <= |sorted| && (j == 0 || sorted[j - 1].timestamp >= x.timestamp)
    requires forall k :: j <= k < |sorted| ==> sorted[k].timestamp < x.timestamp
    ensures Insert(sorted, x) == sorted[..j] + [x] + sorted[j..]
    decreases |sorted|
  {
    var n := |sorted|;
    if n == j {
      assert sorted[..j] == sorted && sorted[j..] == [];
    } else {
      var init, last := sorted[..n - 1], sorted[n - 1];
      assert Insert(sorted, x) == Insert(init, x) + [last];
      InsertAt(init, x, j);
      assert init[..j] == sorted[..j];
      assert init[j..] + [last] == sorted[j..];
    }
  }

  /** One pass of the insertion sort: moves `a[i]` left past the strictly older orders
      of `a[..i]`. */
  method InsertLast(a: array<Order>, i: nat)
    requires i < a.Length
    modifies a
    ensures a[..i + 1] == Insert(old(a[..i]), old(a[i]))
    ensures forall k :: i < k < a.Length ==> a[k] == old(a[k])
  {
    ghost var sorted, x := a[..i], a[i];
    var j := i;
    while j > 0 && a[j - 1].timestamp < a[j].timestamp
      invariant 0 <= j <= i
      invariant a[j] == x
      invariant forall k :: 0 <= k < j ==> a[k] == sorted[k]
      invariant forall k :: j < k <= i ==> a[k] == sorted[k - 1]
      invariant forall k :: i < k < a.Length ==> a[k] == old(a[k])
      invariant forall k :: j <= k < i ==> sorted[k].timestamp < x.timestamp
    {
      Swap(a, j - 1, j);
      j := j - 1;
    }
    InsertAt(sorted, x, j);
    assert a[..i + 1] == sorted[..j] + [x] + sorted[j..];
  }

  /** `orders.sort((a, b) => time(b) - time(a))`, an in-place insertion sort: it leaves the
      array newest first, stable, holding the same orders. */
  method SortNewestFirst(a: array<Order>)
    modifies a
    ensures a[..] == SortedNewestFirst(old(a[..]))
    ensures NewestFirst(a[..])
    ensures multiset(a[..]) == old(multiset(a[..]))
  {
    ghost var orig := a[..];
    for i := 0 to a.Length
      invariant a[..i] == SortedNewestFirst(orig[..i])
      invariant forall k :: i <= k < a.Length ==> a[k] == orig[k]
    {
      assert SortedNewestFirst(orig[..i + 1]) == Insert(SortedNewestFirst(orig[..i]), orig[i]) by {
        assert orig[..i + 1][..i] == orig[..i];
      }
      InsertLast(a, i);
    }
    assert a[..] == SortedNewestFirst(orig) by {
      assert orig[..a.Length] == orig && a[..a.Length] == a[..];
    }
    SortedNewestFirstSpec(orig);
  }

  /** The first k entries of a ledger sorted newest first are sorted, come from it, and
      no entry after them is newer than any of them. */
  lemma NewestPrefix(s: seq<Order>, k: nat)
    requires NewestFirst(s) && k <= |s|
    ensures NewestFirst(s[..k])
    ensures multiset(s[..k]) <= multiset(s)
    ensures forall o :: o in multiset(s) - multiset(s[..k]) ==>
      forall i :: 0 <= i < k ==> o.timestamp <= s[i].timestamp
  {
    assert s == s[..k] + s[k..];
    assert multiset(s) == multiset(s[..k]) + multiset(s[k..]);
    assert multiset(s) - multiset(s[..k]) == multiset(s[k..]);
    forall o | o in multiset(s[k..])
      ensures forall i :: 0 <= i < k ==> o.timestamp <= s[i].timestamp
    {
      assert o in s[k..];
      var m :| 0 <= m < |s[k..]| && s[k..][m] == o;
      assert s[k + m] == o;
    }
  }

  /** `loadRecentOrders`: the ten most recent orders (all of them when there are fewer),
      newest first, equal times in ledger order; they come from the ledger, and no order
      left out is newer than any order shown. */
  method RecentOrders(orders: seq<Order>) returns (recent: seq<Order>)
    ensures |recent| == if |orders| < 10 then |orders| else 10
    ensures recent == SortedNewestFirst(orders)[..|recent|]
    ensures NewestFirst(recent)
    ensures multiset(recent) <= multiset(orders)
    ensures forall o :: o in multiset(orders) - multiset(recent) ==>
      forall i :: 0 <= i < |recent| ==> o.timestamp <= recent[i].timestamp
  {
    var a := new Order[|orders|](i requires 0 <= i < |orders| => orders[i]);
    assert a[..] == orders;
    SortNewestFirst(a);
    var sorted := a[..];
    var k := if |sorted| < 10 then |sorted| else 10;
    NewestPrefix(sorted, k);
    recent := sorted[..k];
  }

  // ---------------------------------------------------------------------------
  // Reset and logout

  /** `handleResetAllValues`: once the admin confirms, remove the catalog and the ledger;
      the admin session stays. Without confirmation nothing is written. */
  method ResetAllValues(s: Store, confirmed: bool)
    modifies s`products, s`orders
    ensures confirmed ==> s.products == [] && s.orders == []
    ensures !confirmed ==> unchanged(s)
  {
    if confirmed {
      s.products := [];
      s.orders := [];
    }
  }

  /** `handleLogout`: remove the admin session and nothing else. */
  method Logout(s: Store)
    modifies s`adminAuth, s`adminUser
    ensures s.adminAuth == None && s.adminUser == None
  {
    s.adminAuth := None;
    s.adminUser := None;
  }
}
