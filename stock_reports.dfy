/**
 * The reporting side of `src/stock/services.py`: the manual cross-check of one batch's figures
 * (`verify_batch_calculation`), the revenue and cost of the orders sold in a period
 * (`calculate_revenue_cost`) and the opening and closing stock of a period
 * (`_calculate_opening_closing_stock`), over the ledger and reservations of one stock.
 */
module StockReports {
  import opened Common
  import opened StockModels
  import opened StockLedger
  import opened StockManagers

  // ---------------------------------------------------------------- verify_batch_calculation

  /** Quantity, revenue, cost and profit, as the annotations or the manual loop compute them. */
  datatype Figures = Figures(qty: nat, revenue: Cents, cost: Cents, profit: Cents)

  datatype Verification = Verification(db: Figures, manual: Figures, matches: bool)

  /**
   * `verify_batch_calculation`: recompute batch `i`'s sold quantity and revenue from its closed
   * reservations and compare them with `with_profit_loss`.
   */
  method VerifyBatchCalculation(b: seq<Batch>, res: seq<Reservation>, l: seq<Entry>, i: nat) returns (v: Verification)
    requires i < |b|
    ensures var pl := WithProfitLoss(b, res, l, i);
      v.db == Figures(pl.soldQty, pl.soldAmount, pl.costAmount, pl.netAmount)
    ensures v.manual.qty == HeldOn(res, i, false) && v.manual.revenue == ClosedRevenue(res, i)
    ensures v.manual.cost == v.manual.qty * b[i].unitCost
    ensures v.manual.profit == v.manual.revenue - v.manual.cost
    ensures v.matches <==> v.db.qty == v.manual.qty && v.db.revenue == v.manual.revenue
  {
    var pl := WithProfitLoss(b, res, l, i);
    var manualQty: nat := 0;
    var manualRevenue: Cents := 0;
    var j := 0;
    while j < |res|
      invariant j <= |res|
      invariant manualQty == HeldOn(res[..j], i, false) && manualRevenue == ClosedRevenue(res[..j], i)
    {
      assert res[..j + 1][..j] == res[..j];
      var r := res[j];
      if r.batch == i && !r.isActive {
        manualQty := manualQty + r.quantity;
        manualRevenue := manualRevenue + r.quantity * (r.item.unitPrice - DiscountOrZero(r.item));
      }
      j := j + 1;
    }
    assert res[..j] == res;
    var manualCost := manualQty * b[i].unitCost;
    var manual := Figures(manualQty, manualRevenue, manualCost, manualRevenue - manualCost);
    var db := Figures(pl.soldQty, pl.soldAmount, pl.costAmount, pl.netAmount);
    v := Verification(db, manual, pl.soldQty == manualQty && pl.soldAmount == manualRevenue);
  }

  /** The figures of `verify_batch_calculation`, as one function of the tables. */
  function Verified(b: seq<Batch>, res: seq<Reservation>, l: seq<Entry>, i: nat): bool
    requires i < |b|
  {
    SoldQty(l, i) == HeldOn(res, i, false) && SoldAmount(res, l, i) == ClosedRevenue(res, i)
  }

  /**
   * Under the stock's invariant the cross-check reports a match exactly when no reservation on the
   * batch was ever released: a released reservation stays closed, so the manual loop counts it.
   */
  lemma MatchIffNoRelease(b: seq<Batch>, res: seq<Reservation>, l: seq<Entry>, i: nat)
    requires Conserved(b, res, l) && i < |b|
    ensures Verified(b, res, l, i) <==> KindSum(l, ReleaseReserve, i) == 0
  {
    assert BatchBalanced(b, res, l, i);
    SumSigns(l, i);
    if KindSum(l, ReleaseReserve, i) == 0 {
      NoReleaseSum(l, i);
      SoldFiguresWithoutReleases(b, res, l, i);
    }
  }

  /** Release entries are positive, so a zero release total means there is none. */
  lemma {:induction false} NoReleaseSum(l: seq<Entry>, i: nat)
    requires forall j :: 0 <= j < |l| ==> WellSigned(l[j])
    requires KindSum(l, ReleaseReserve, i) == 0
    ensures NoEntries(l, ReleaseReserve, i)
  {
    if l != [] {
      var n := |l| - 1;
      SumSigns(l[..n], i);
      assert WellSigned(l[n]);
      NoReleaseSum(l[..n], i);
      assert forall j :: 0 <= j < n ==> l[j] == l[..n][j];
    }
  }

  // ---------------------------------------------------------------- calculate_revenue_cost

  /**
   * A filter on `created_at`: from `from` (inclusive) up to `upTo`, inclusive unless `strictUpper`.
   * A bound that is `None` is not applied.
   */
  datatype Window = Window(from: Option<int>, upTo: Option<int>, strictUpper: bool)

  const Everything := Window(None, None, false)

  predicate InWindow(t: int, w: Window)
  {
    && (w.from.None? || w.from.value <= t)
    && (w.upTo.None? || (if w.strictUpper then t < w.upTo.value else t <= w.upTo.value))
  }

  /** The distinct orders of the `sold` entries in the window. */
  function SoldOrders(l: seq<Entry>, w: Window): (r: set<nat>)
    ensures forall o :: o in r <==>
      exists j :: 0 <= j < |l| && l[j].kind == Sold && l[j].order == Some(o) && InWindow(l[j].createdAt, w)
  {
    if l == [] then {}
    else
      var e := l[|l| - 1];
      var prev := SoldOrders(l[..|l| - 1], w);
      assert forall j :: 0 <= j < |l| - 1 ==> l[..|l| - 1][j] == l[j];
      prev + (if e.kind == Sold && e.order.Some? && InWindow(e.createdAt, w) then {e.order.value} else {})
  }

  /** Revenue of the closed reservations whose order is in `orders`, over all batches. */
  function OrdersRevenue(res: seq<Reservation>, orders: set<nat>): Cents
  {
    if res == [] then 0
    else
      var v := res[|res| - 1];
      OrdersRevenue(res[..|res| - 1], orders) + (if !v.isActive && v.item.orderId in orders then LineTotal(v) else 0)
  }

  /** Cost, at their batches' unit cost, of the closed reservations whose order is in `orders`. */
  function OrdersCost(b: seq<Batch>, res: seq<Reservation>, orders: set<nat>): Cents
    requires ReservationsWellFormed(b, res)
  {
    if res == [] then 0
    else
      var v := res[|res| - 1];
      OrdersCost(b, res[..|res| - 1], orders)
        + (if !v.isActive && v.item.orderId in orders then b[v.batch].unitCost * v.quantity else 0)
  }

  /**
   * `calculate_revenue_cost(stock, period_start, period_end)`: revenue and cost of the closed
   * reservations of the orders that have a `sold` entry in the period.
   */
  method CalculateRevenueCost(b: seq<Batch>, res: seq<Reservation>, l: seq<Entry>, start: Option<int>, end: Option<int>)
    returns (revenue: Cents, cost: Cents)
    requires ReservationsWellFormed(b, res)
    ensures var orders := SoldOrders(l, Window(start, end, false));
      revenue == OrdersRevenue(res, orders) && cost == OrdersCost(b, res, orders)
  {
    var orders := SoldOrders(l, Window(start, end, false));
    revenue, cost := 0, 0;
    if orders != {} {
      var j := 0;
      while j < |res|
        invariant j <= |res|
        invariant revenue == OrdersRevenue(res[..j], orders) && cost == OrdersCost(b, res[..j], orders)
      {
        assert res[..j + 1][..j] == res[..j];
        var r := res[j];
        if !r.isActive && r.item.orderId in orders {
          revenue := revenue + (r.item.unitPrice - DiscountOrZero(r.item)) * r.quantity;
          cost := cost + b[r.batch].unitCost * r.quantity;
        }
        j := j + 1;
      }
      assert res[..j] == res;
    } else {
      NoOrdersNoRevenue(b, res);
    }
  }

  lemma {:induction false} NoOrdersNoRevenue(b: seq<Batch>, res: seq<Reservation>)
    requires ReservationsWellFormed(b, res)
    ensures OrdersRevenue(res, {}) == 0 && OrdersCost(b, res, {}) == 0
  {
    if res != [] {
      NoOrdersNoRevenue(b, res[..|res| - 1]);
    }
  }

  /** Revenue and cost of the orders sold in a window: the function the method computes. */
  function RevenueCost(b: seq<Batch>, res: seq<Reservation>, l: seq<Entry>, w: Window): (Cents, Cents)
    requires ReservationsWellFormed(b, res)
  {
    var orders := SoldOrders(l, w);
    (OrdersRevenue(res, orders), OrdersCost(b, res, orders))
  }

  /** A period without a `sold` entry has neither revenue nor cost. */
  lemma QuietPeriodNoRevenue(b: seq<Batch>, res: seq<Reservation>, l: seq<Entry>, w: Window)
    requires ReservationsWellFormed(b, res)
    requires forall j :: 0 <= j < |l| && l[j].kind == Sold ==> !InWindow(l[j].createdAt, w)
    ensures RevenueCost(b, res, l, w) == (0, 0)
  {
    assert SoldOrders(l, w) == {};
    NoOrdersNoRevenue(b, res);
  }

  // ---------------------------------------------------------------- _calculate_opening_closing_stock

  /** Sum of `quantity_change` over the entries of kind `k` in the window, over all batches. */
  function Movement(l: seq<Entry>, k: ChangeType, w: Window): int
  {
    if l == [] then 0
    else
      var e := l[|l| - 1];
      Movement(l[..|l| - 1], k, w) + (if e.kind == k && InWindow(e.createdAt, w) then e.quantityChange else 0)
  }

  /** Sum of `abs(quantity_change)` over the entries of kind `k`, over all batches. */
  function AbsMovement(l: seq<Entry>, k: ChangeType): nat
  {
    if l == [] then 0
    else
      var e := l[|l| - 1];
      AbsMovement(l[..|l| - 1], k) + (if e.kind == k then Abs(e.quantityChange) else 0)
  }

  /** `restock + editstock + reserve + release_reserve` in the window: the stock on hand it moves. */
  function OnHandMovement(l: seq<Entry>, w: Window): int
  {
    Movement(l, Restock, w) + Movement(l, EditStock, w) + Movement(l, Reserve, w) + Movement(l, ReleaseReserve, w)
  }

  /** The dictionary `_calculate_opening_closing_stock` returns; `stockNotPlaced` only when filtered. */
  datatype Report = Report(
    openingQuantity: int,
    openingValue: Cents,
    closingQuantity: int,
    closingValue: Cents,
    periodProfit: Cents,
    orderProcess: int,
    stockNotPlaced: Option<nat>,
    soldQuantity: nat,
    restockToday: int,
    restockWithAdjustment: int,
    adjustmentToday: int,
    reserveToday: int,
    releaseToday: int,
    totalActualSoldCost: Cents,
    totalActualCostCost: Cents)

  /** The report over the whole history, without a date filter. */
  function UnfilteredReport(b: seq<Batch>, res: seq<Reservation>, l: seq<Entry>): Report
    requires ReservationsWellFormed(b, res)
  {
    var sold := AbsMovement(l, Sold);
    var restock := Movement(l, Restock, Everything);
    var adjustment := Movement(l, EditStock, Everything);
    var reserve := Movement(l, Reserve, Everything);
    var release := Movement(l, ReleaseReserve, Everything);
    var (revenue, cost) := RevenueCost(b, res, l, Everything);
    Report(0, 0, restock + adjustment + reserve + release, revenue - cost, revenue - cost,
           Abs(reserve) - release - sold, None, sold, restock, restock - Abs(adjustment), adjustment, reserve,
           release, revenue, cost)
  }

  /** The report for the period from `start` to `end`, both inclusive. */
  function FilteredReport(b: seq<Batch>, res: seq<Reservation>, l: seq<Entry>, start: int, end: int): Report
    requires ReservationsWellFormed(b, res)
  {
    var before := Window(None, Some(start), true);
    var period := Window(Some(start), Some(end), false);
    var opening := OnHandMovement(l, before);
    var (openingRevenue, openingCost) := RevenueCost(b, res, l, Window(None, Some(start), false));
    var (closingRevenue, closingCost) := RevenueCost(b, res, l, Window(None, Some(end), false));
    var (periodRevenue, periodCost) := RevenueCost(b, res, l, period);
    var sold := Movement(l, Sold, period);
    var restock := Movement(l, Restock, period);
    var adjustment := Movement(l, EditStock, period);
    var reserve := Movement(l, Reserve, period);
    var release := Movement(l, ReleaseReserve, period);
    var openingValue := openingRevenue - openingCost;
    var closingValue := closingRevenue - closingCost;
    var withAdjustment := restock - Abs(adjustment);
    Report(opening, openingValue, opening + OnHandMovement(l, period), closingValue, closingValue - openingValue,
           Abs(reserve) - release - Abs(sold), Some(Max(withAdjustment - Abs(reserve), 0) as nat), Abs(sold),
           restock, withAdjustment, adjustment, Abs(reserve), release, periodRevenue, periodCost)
  }

  /** `_calculate_opening_closing_stock(stock, period_start, period_end, has_date_filter)`. */
  function OpeningClosingStock(b: seq<Batch>, res: seq<Reservation>, l: seq<Entry>, start: int, end: int,
                               hasDateFilter: bool): (r: Report)
    requires ReservationsWellFormed(b, res)
    ensures !hasDateFilter ==> r.openingQuantity == 0 && r.openingValue == 0 && r.stockNotPlaced == None
    ensures hasDateFilter ==> r.stockNotPlaced.Some? && r.periodProfit == r.closingValue - r.openingValue
  {
    if hasDateFilter then FilteredReport(b, res, l, start, end) else UnfilteredReport(b, res, l)
  }

  lemma {:induction false} MovementOutside(l: seq<Entry>, k: ChangeType, w: Window)
    requires forall j :: 0 <= j < |l| ==> !InWindow(l[j].createdAt, w)
    ensures Movement(l, k, w) == 0
  {
    if l != [] {
      MovementOutside(l[..|l| - 1], k, w);
    }
  }

  /**
   * A period in which nothing happened closes where it opened: no movement, nothing in process,
   * nothing sold and no revenue or cost of its own.
   */
  lemma QuietPeriodKeepsStock(b: seq<Batch>, res: seq<Reservation>, l: seq<Entry>, start: int, end: int)
    requires ReservationsWellFormed(b, res)
    requires forall j :: 0 <= j < |l| ==> !(start <= l[j].createdAt <= end)
    ensures var r := OpeningClosingStock(b, res, l, start, end, true);
      && r.closingQuantity == r.openingQuantity
      && r.orderProcess == 0 && r.soldQuantity == 0 && r.stockNotPlaced == Some(0)
      && r.totalActualSoldCost == 0 && r.totalActualCostCost == 0
  {
    var period := Window(Some(start), Some(end), false);
    assert forall j :: 0 <= j < |l| ==> !InWindow(l[j].createdAt, period);
    MovementOutside(l, Restock, period);
    MovementOutside(l, EditStock, period);
    MovementOutside(l, Reserve, period);
    MovementOutside(l, ReleaseReserve, period);
    MovementOutside(l, Sold, period);
    QuietPeriodNoRevenue(b, res, l, period);
  }

  /** Over a period in which nothing happened, the closing value is the opening value: no profit. */
  lemma QuietPeriodKeepsValue(b: seq<Batch>, res: seq<Reservation>, l: seq<Entry>, start: int, end: int)
    requires ReservationsWellFormed(b, res) && start <= end
    requires forall j :: 0 <= j < |l| ==> !(start <= l[j].createdAt <= end)
    ensures var r := OpeningClosingStock(b, res, l, start, end, true);
      r.closingValue == r.openingValue && r.periodProfit == 0
  {
    var upToStart, upToEnd := Window(None, Some(start), false), Window(None, Some(end), false);
    forall j | 0 <= j < |l| ensures InWindow(l[j].createdAt, upToStart) == InWindow(l[j].createdAt, upToEnd) {
    }
    assert SoldOrders(l, upToStart) == SoldOrders(l, upToEnd);
  }

  lemma {:induction false} MovementSplit(l: seq<Entry>, k: ChangeType, start: int, end: int)
    requires start <= end
    ensures Movement(l, k, Window(None, Some(start), true)) + Movement(l, k, Window(Some(start), Some(end), false))
         == Movement(l, k, Window(None, Some(end), false))
  {
    if l != [] {
      MovementSplit(l[..|l| - 1], k, start, end);
    }
  }

  /**
   * The filtered closing quantity is what the entries up to the period's end have put on hand: the
   * opening (before the period) and the period's movements never overlap or leave a gap.
   */
  lemma ClosingCountsUpToEnd(b: seq<Batch>, res: seq<Reservation>, l: seq<Entry>, start: int, end: int)
    requires ReservationsWellFormed(b, res) && start <= end
    ensures OpeningClosingStock(b, res, l, start, end, true).closingQuantity
         == OnHandMovement(l, Window(None, Some(end), false))
  {
    MovementSplit(l, Restock, start, end);
    MovementSplit(l, EditStock, start, end);
    MovementSplit(l, Reserve, start, end);
    MovementSplit(l, ReleaseReserve, start, end);
  }

  // ---------------------------------------------------------------- the unfiltered report against the tables

  /** Sum over the batches `0..n` of their kind-`k` totals. */
  function PerBatch(l: seq<Entry>, k: ChangeType, n: nat): int
  {
    if n == 0 then 0 else PerBatch(l, k, n - 1) + KindSum(l, k, n - 1)
  }

  /** Quantity the reservations with the given `is_active` hold over the batches `0..n`. */
  function HeldAcross(res: seq<Reservation>, n: nat, active: bool): nat
  {
    if n == 0 then 0 else HeldAcross(res, n - 1, active) + HeldOn(res, n - 1, active)
  }

  lemma {:induction false} PerBatchAppend(l: seq<Entry>, e: Entry, k: ChangeType, n: nat)
    ensures PerBatch(l + [e], k, n)
         == PerBatch(l, k, n) + (if e.kind == k && e.batch < n then e.quantityChange else 0)
  {
    if n > 0 {
      PerBatchAppend(l, e, k, n - 1);
      KindSumAppend(l, e, k, n - 1);
      assert PerBatch(l + [e], k, n) == PerBatch(l + [e], k, n - 1) + KindSum(l + [e], k, n - 1);
    }
  }

  /** Summing the whole ledger by kind is summing it batch by batch. */
  lemma {:induction false} MovementIsPerBatch(l: seq<Entry>, k: ChangeType, n: nat)
    requires forall j :: 0 <= j < |l| ==> l[j].batch < n
    ensures Movement(l, k, Everything) == PerBatch(l, k, n)
  {
    if l == [] {
      PerBatchEmpty(k, n);
    } else {
      var m := |l| - 1;
      MovementIsPerBatch(l[..m], k, n);
      PerBatchAppend(l[..m], l[m], k, n);
      assert l[..m] + [l[m]] == l;
    }
  }

  lemma {:induction false} PerBatchEmpty(k: ChangeType, n: nat)
    ensures PerBatch([], k, n) == 0
  {
    if n > 0 {
      PerBatchEmpty(k, n - 1);
    }
  }

  /** Sold entries are negative, so summing their magnitudes is negating their sum. */
  lemma {:induction false} AbsMovementOfSold(l: seq<Entry>)
    requires forall j :: 0 <= j < |l| ==> WellSigned(l[j])
    ensures AbsMovement(l, Sold) == -Movement(l, Sold, Everything)
  {
    if l != [] {
      AbsMovementOfSold(l[..|l| - 1]);
      assert WellSigned(l[|l| - 1]);
    }
  }

  lemma {:induction false} BalancedAcross(b: seq<Batch>, res: seq<Reservation>, l: seq<Entry>, n: nat)
    requires Conserved(b, res, l) && n <= |b|
    ensures PerBatch(l, Restock, n) + PerBatch(l, EditStock, n) + PerBatch(l, Reserve, n)
            + PerBatch(l, ReleaseReserve, n) == SumRemaining(b[..n])
    ensures -PerBatch(l, Reserve, n) == HeldAcross(res, n, true) + HeldAcross(res, n, false)
    ensures HeldAcross(res, n, false) == -PerBatch(l, Sold, n) + PerBatch(l, ReleaseReserve, n)
  {
    if n > 0 {
      BalancedAcross(b, res, l, n - 1);
      assert BatchBalanced(b, res, l, n - 1);
      assert b[..n][..n - 1] == b[..n - 1];
    }
  }

  /**
   * Over the whole history the report agrees with the tables: the closing quantity is the stock
   * left in the batches, `order_process` is what active reservations still hold, and the sold
   * quantity is the batches' `sold_qty` summed.
   */
  lemma UnfilteredMatchesTables(b: seq<Batch>, res: seq<Reservation>, l: seq<Entry>)
    requires Conserved(b, res, l)
    ensures var r := OpeningClosingStock(b, res, l, 0, 0, false);
      && r.closingQuantity == SumRemaining(b)
      && r.orderProcess == HeldAcross(res, |b|, true)
      && r.soldQuantity == -PerBatch(l, Sold, |b|)
  {
    var n := |b|;
    MovementIsPerBatch(l, Restock, n);
    MovementIsPerBatch(l, EditStock, n);
    MovementIsPerBatch(l, Reserve, n);
    MovementIsPerBatch(l, ReleaseReserve, n);
    MovementIsPerBatch(l, Sold, n);
    AbsMovementOfSold(l);
    BalancedAcross(b, res, l, n);
    assert b[..n] == b;
  }
}
