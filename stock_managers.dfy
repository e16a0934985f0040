/**
 * The per-batch annotations of `StockBatchQuerySet` (`src/stock/managers.py`) as functions over the
 * history ledger and the reservations of one stock: the per-kind totals of `with_annotations` and
 * the sold quantity, revenue, cost and profit of `with_profit_loss`.
 */
module StockManagers {
  import opened Common
  import opened StockModels
  import opened StockLedger

  /** `restock_total`, `edit_total` and `sold_total` of one batch. */
  datatype Annotations = Annotations(restockTotal: int, editTotal: int, soldTotal: int)

  /** `sold_qty`, `sold_amount`, `cost_amount` and `net_amount` of one batch. */
  datatype ProfitLoss = ProfitLoss(soldQty: nat, soldAmount: Cents, costAmount: Cents, netAmount: Cents)

  /** One row of `with_full_details`. */
  datatype Details = Details(annotations: Annotations, profitLoss: ProfitLoss)

  /** `with_annotations` for batch `i`: each total is 0 when the batch has no entry of its kind. */
  function WithAnnotations(l: seq<Entry>, i: nat): Annotations
  {
    Annotations(KindSum(l, Restock, i), KindSum(l, EditStock, i), KindSum(l, Sold, i))
  }

  /** `Coalesce(order_item.discount_amount, 0)`. */
  function DiscountOrZero(item: OrderItem): Cents
  {
    match item.discountAmount
    case None => 0
    case Some(d) => d
  }

  /** `reserved_quantity * (unit_price - discount)` of one reservation. */
  function LineTotal(v: Reservation): Cents
  {
    v.quantity * (v.item.unitPrice - DiscountOrZero(v.item))
  }

  /** `sold_qty`: the magnitude of the batch's `sold` total. */
  function SoldQty(l: seq<Entry>, i: nat): nat
  {
    Abs(KindSum(l, Sold, i))
  }

  /** Revenue of the closed reservations on batch `i` whose order is in `orders`. */
  function RevenueFor(res: seq<Reservation>, orders: set<nat>, i: nat): Cents
  {
    if res == [] then 0
    else
      var v := res[|res| - 1];
      RevenueFor(res[..|res| - 1], orders, i) + (if v.batch == i && !v.isActive && v.item.orderId in orders then LineTotal(v) else 0)
  }

  /** Revenue of every closed reservation on batch `i`. */
  function ClosedRevenue(res: seq<Reservation>, i: nat): Cents
  {
    if res == [] then 0
    else
      var v := res[|res| - 1];
      ClosedRevenue(res[..|res| - 1], i) + (if v.batch == i && !v.isActive then LineTotal(v) else 0)
  }

  /** `sold_amount`: the closed reservations of the batch whose order has a `sold` entry on it. */
  function SoldAmount(res: seq<Reservation>, l: seq<Entry>, i: nat): Cents
  {
    RevenueFor(res, OrdersOf(l, Sold, i), i)
  }

  /** `with_profit_loss` for batch `i`. */
  function WithProfitLoss(b: seq<Batch>, res: seq<Reservation>, l: seq<Entry>, i: nat): (r: ProfitLoss)
    requires i < |b|
    ensures r.netAmount == r.soldAmount - r.soldQty * b[i].unitCost
  {
    var qty := SoldQty(l, i);
    var amount := SoldAmount(res, l, i);
    var cost := qty * b[i].unitCost;
    ProfitLoss(qty, amount, cost, amount - cost)
  }

  /** `with_full_details`: `with_annotations` followed by `with_profit_loss`, one row per batch. */
  function WithFullDetails(b: seq<Batch>, res: seq<Reservation>, l: seq<Entry>): (r: seq<Details>)
    ensures |r| == |b|
    ensures forall i :: 0 <= i < |b| ==>
      r[i].annotations == WithAnnotations(l, i) && r[i].profitLoss == WithProfitLoss(b, res, l, i)
  {
    seq(|b|, i requires 0 <= i < |b| => Details(WithAnnotations(l, i), WithProfitLoss(b, res, l, i)))
  }

  /** No entry of kind `k` on batch `i`. */
  predicate NoEntries(l: seq<Entry>, k: ChangeType, i: nat)
  {
    forall j :: 0 <= j < |l| ==> !(l[j].kind == k && l[j].batch == i)
  }

  lemma {:induction false} NoEntriesNoSum(l: seq<Entry>, k: ChangeType, i: nat)
    requires NoEntries(l, k, i)
    ensures KindSum(l, k, i) == 0 && OrdersOf(l, k, i) == {}
  {
    if l != [] {
      NoEntriesNoSum(l[..|l| - 1], k, i);
    }
  }

  /**
   * The `Coalesce(..., 0)` defaults: a batch that was never sold from has no sold quantity, revenue,
   * cost or profit, and no `sold_total`.
   */
  lemma UnsoldBatchFigures(b: seq<Batch>, res: seq<Reservation>, l: seq<Entry>, i: nat)
    requires i < |b| && NoEntries(l, Sold, i)
    ensures WithAnnotations(l, i).soldTotal == 0
    ensures WithProfitLoss(b, res, l, i) == ProfitLoss(0, 0, 0, 0)
  {
    NoEntriesNoSum(l, Sold, i);
    RevenueForNone(res, i);
  }

  lemma {:induction false} RevenueForNone(res: seq<Reservation>, i: nat)
    ensures RevenueFor(res, {}, i) == 0
  {
    if res != [] {
      RevenueForNone(res[..|res| - 1], i);
    }
  }

  /**
   * Under the stock's invariant the annotations account for the batch: its `restock` and `editstock`
   * totals add up to its initial quantity, `sold_qty` is the negated `sold_total`, and what is left,
   * still reserved and sold makes up the initial quantity.
   */
  lemma AnnotationsBalance(b: seq<Batch>, res: seq<Reservation>, l: seq<Entry>, i: nat)
    requires Conserved(b, res, l) && i < |b|
    ensures WithAnnotations(l, i).restockTotal + WithAnnotations(l, i).editTotal == b[i].initial
    ensures WithAnnotations(l, i).soldTotal == -(SoldQty(l, i) as int)
    ensures b[i].remaining + HeldOn(res, i, true) + SoldQty(l, i) == b[i].initial
  {
    assert BatchBalanced(b, res, l, i);
    BatchConservation(b, res, l, i);
  }

  /** Restricting to a set of orders that holds every closed reservation's order changes nothing. */
  lemma {:induction false} RevenueForAll(res: seq<Reservation>, orders: set<nat>, i: nat)
    requires forall j :: 0 <= j < |res| && res[j].batch == i && !res[j].isActive ==> res[j].item.orderId in orders
    ensures RevenueFor(res, orders, i) == ClosedRevenue(res, i)
  {
    if res != [] {
      RevenueForAll(res[..|res| - 1], orders, i);
    }
  }

  /**
   * While no reservation on batch `i` was ever released, `sold_qty` is the quantity of the batch's
   * closed reservations and `sold_amount` is their whole revenue.
   */
  lemma {:induction false} SoldFiguresWithoutReleases(b: seq<Batch>, res: seq<Reservation>, l: seq<Entry>, i: nat)
    requires Conserved(b, res, l) && i < |b| && NoEntries(l, ReleaseReserve, i)
    ensures SoldQty(l, i) == HeldOn(res, i, false)
    ensures SoldAmount(res, l, i) == ClosedRevenue(res, i)
  {
    assert BatchBalanced(b, res, l, i);
    NoEntriesNoSum(l, ReleaseReserve, i);
    SumSigns(l, i);
    assert forall j :: 0 <= j < |res| && res[j].batch == i && !res[j].isActive ==>
      res[j].item.orderId in OrdersOf(l, Sold, i);
    RevenueForAll(res, OrdersOf(l, Sold, i), i);
  }
}
