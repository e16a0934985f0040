/**
 * The inventory tables of one stock item (`src/stock/models.py`): batches (lots), the append-only
 * history ledger, reservations against order lines, and price changes; with the derived quantities
 * and prices the model class computes.
 *
 * Money is a whole number of cents (the `DecimalField(decimal_places=2)` columns); a discount
 * percentage is a whole number of hundredths of a percent, so 0..10000 is 0%..100%.
 */
module StockModels {
  import opened Common
  import opened Decimals

  type Cents = int
  type Hundredths = int

  /** `StockHistory.CHANGE_TYPES`. */
  datatype ChangeType = Restock | EditStock | Reserve | ReleaseReserve | Sold

  /** The value stored in `change_type`. */
  function ChangeTypeCode(k: ChangeType): string
  {
    match k
    case Restock => "restock"
    case EditStock => "editstock"
    case Reserve => "reserve"
    case ReleaseReserve => "release_reserve"
    case Sold => "sold"
  }

  /** The choice's human-readable label. */
  function ChangeTypeLabel(k: ChangeType): string
  {
    match k
    case Restock => "Restock"
    case EditStock => "Edit Stock"
    case Reserve => "Reserve for Order"
    case ReleaseReserve => "Release Reservation"
    case Sold => "Sold"
  }

  /** The choice a stored `change_type` names, if it is one of the five. */
  function ParseChangeType(s: string): (r: Option<ChangeType>)
    ensures r.Some? ==> ChangeTypeCode(r.value) == s
  {
    if s == "restock" then Some(Restock)
    else if s == "editstock" then Some(EditStock)
    else if s == "reserve" then Some(Reserve)
    else if s == "release_reserve" then Some(ReleaseReserve)
    else if s == "sold" then Some(Sold)
    else None
  }

  /** Every change type is stored under its own code and read back from it. */
  lemma ChangeTypeRoundTrip(k: ChangeType)
    ensures ParseChangeType(ChangeTypeCode(k)) == Some(k)
  {
  }

  /** `StockBatch`: a lot received on `receivedDate` at `unitCost` per unit. */
  datatype Batch = Batch(
    initial: nat,
    remaining: nat,
    unitCost: Cents,
    receivedDate: int,
    createdAt: int,
    supplier: Option<nat>,
    notes: Option<string>)

  /**
   * `OrderItem`: a line of an order. `discountAmount` is read by the reports and annotations, but
   * the source's `OrderItem` has no such field; the model takes it as an optional per-line discount
   * that counts as 0 when absent.
   */
  datatype OrderItem = OrderItem(id: nat, orderId: nat, quantity: nat, unitPrice: Cents, discountAmount: Option<Cents>)

  /** `StockReservation`: `quantity` units of `batch` held for `item`. */
  datatype Reservation = Reservation(item: OrderItem, batch: nat, quantity: nat, isActive: bool)

  /** `StockHistory`: one ledger row. `before`/`after` are `None` where the source stores NULL. */
  datatype Entry = Entry(
    kind: ChangeType,
    batch: nat,
    quantityChange: int,
    before: Option<nat>,
    after: Option<nat>,
    order: Option<nat>,
    changedBy: Option<nat>,
    createdAt: int,
    reason: string)

  /** `PriceHistory`. */
  datatype PriceChange = PriceChange(
    oldPrice: Cents,
    newPrice: Cents,
    oldDiscount: Hundredths,
    newDiscount: Hundredths,
    changedBy: Option<nat>,
    reason: string)

  /** Sum of `remaining_quantity` over the batches. */
  function SumRemaining(batches: seq<Batch>): nat
  {
    if batches == [] then 0
    else SumRemaining(batches[..|batches| - 1]) + batches[|batches| - 1].remaining
  }

  lemma {:induction false} SumRemainingZero(batches: seq<Batch>)
    ensures SumRemaining(batches) == 0 <==> forall i :: 0 <= i < |batches| ==> batches[i].remaining == 0
  {
    if batches != [] {
      SumRemainingZero(batches[..|batches| - 1]);
    }
  }

  /** One batch's remaining quantity never exceeds the sum. */
  lemma {:induction false} SumRemainingBounds(batches: seq<Batch>, i: nat)
    requires i < |batches|
    ensures batches[i].remaining <= SumRemaining(batches)
  {
    if i < |batches| - 1 {
      SumRemainingBounds(batches[..|batches| - 1], i);
    }
  }

  /**
   * `Stock.total_remaining_quantity`: the aggregate `Sum('remaining_quantity')`, or 0 when the sum is
   * NULL (no batches) or the stock has no primary key yet.
   */
  function TotalRemainingQuantity(hasPk: bool, batches: seq<Batch>): (r: nat)
    ensures !hasPk ==> r == 0
    ensures hasPk ==> forall i :: 0 <= i < |batches| ==> batches[i].remaining <= r
    ensures r == 0 <==> !hasPk || forall i :: 0 <= i < |batches| ==> batches[i].remaining == 0
  {
    if hasPk then
      SumRemainingZero(batches);
      forall i | 0 <= i < |batches| ensures batches[i].remaining <= SumRemaining(batches) {
        SumRemainingBounds(batches, i);
      }
      SumRemaining(batches)
    else 0
  }

  /** `Stock.can_sell`: something remains and the price is positive. */
  predicate CanSell(totalRemaining: nat, price: Cents)
  {
    totalRemaining > 0 && price > 0
  }

  /** `Stock.save` sets `is_available` to this: more than one unit and a price above 1.00. */
  function AvailableOnSave(totalRemaining: nat, price: Cents): (r: bool)
    ensures r ==> CanSell(totalRemaining, price)
    ensures totalRemaining == 1 ==> !r
  {
    totalRemaining > 1 && price > 100
  }

  /** A stock with one unit left at a positive price can be sold but is saved as unavailable. */
  lemma SellableButUnavailable()
    ensures CanSell(1, 500) && !AvailableOnSave(1, 500)
    ensures CanSell(5, 100) && !AvailableOnSave(5, 100)
  {
  }

  /**
   * `(1 - pct / 100).quantize(Decimal('0.01'), ROUND_HALF_UP)` in hundredths: the price factor left
   * after the discount, rounded before it is applied.
   */
  function DiscountFactor(pct: Hundredths): (f: int)
    ensures 2 * Abs(100 * f - (10000 - pct)) <= 100
    ensures 0 <= pct <= 10000 ==> 0 <= f <= 100
    ensures pct == 0 ==> f == 100
    ensures pct == 10000 ==> f == 0
  {
    FactorFacts(pct);
    QuantizeHalfUp(10000 - pct, 4, 2)
  }

  lemma FactorFacts(pct: Hundredths)
    ensures var f := QuantizeHalfUp(10000 - pct, 4, 2);
      && 2 * Abs(100 * f - (10000 - pct)) <= 100
      && (0 <= pct <= 10000 ==> 0 <= f <= 100)
      && (pct == 0 ==> f == 100)
      && (pct == 10000 ==> f == 0)
  {
    assert Pow10(2) == 100;
    QuantizeExact(0, 4, 2);
    QuantizeExact(100, 4, 2);
    if 0 <= pct <= 10000 {
      QuantizeMonotone(0, 10000 - pct, 4, 2);
      QuantizeMonotone(10000 - pct, 10000, 4, 2);
    }
  }

  /**
   * `Stock.price_after_discount` in ten-thousandths: the price times the rounded factor (the
   * product itself is not rounded).
   */
  function PriceAfterDiscount(price: Cents, pct: Hundredths): (r: int)
    ensures 0 <= pct <= 10000 && price >= 0 ==> 0 <= r <= 100 * price
    ensures pct == 0 ==> r == 100 * price
    ensures pct == 10000 ==> r == 0
    ensures 2 * Abs(100 * r - price * (10000 - pct)) <= 100 * Abs(price)
  {
    var f := DiscountFactor(pct);
    FactorBounds(price, f);
    ScaledError(price, f, 10000 - pct);
    price * f
  }

  /** `Stock.discount_amount` in ten-thousandths: what the discount takes off the price. */
  function DiscountAmount(price: Cents, pct: Hundredths): (r: int)
    ensures r + PriceAfterDiscount(price, pct) == 100 * price
    ensures 0 <= pct <= 10000 && price >= 0 ==> 0 <= r <= 100 * price
    ensures pct == 0 ==> r == 0
  {
    100 * price - PriceAfterDiscount(price, pct)
  }

  lemma FactorBounds(price: int, f: int)
    ensures price >= 0 && 0 <= f <= 100 ==> 0 <= price * f <= 100 * price
    ensures f == 100 ==> price * f == 100 * price
  {
  }

  lemma {:induction false} ScaledError(price: int, f: int, x: int)
    requires 2 * Abs(100 * f - x) <= 100
    ensures 2 * Abs(100 * (price * f) - price * x) <= 100 * Abs(price)
  {
    MulShift(price, f, x);
    AbsMulBound(price, 100 * f - x);
  }

  /** Moving the factor 100 across the product. */
  lemma MulShift(price: int, f: int, x: int)
    ensures 100 * (price * f) - price * x == price * (100 * f - x)
  {
  }

  /** A factor of at most one half in absolute value scales an amount by at most half of it. */
  lemma AbsMulBound(a: int, b: int)
    requires 2 * Abs(b) <= 100
    ensures 2 * Abs(a * b) <= 100 * Abs(a)
  {
    var p, q := Abs(a), Abs(b);
    assert Abs(a * b) == p * q;
    MulLe(p, 2 * q, 100);
  }

  lemma MulLe(a: nat, b: int, c: int)
    requires b <= c
    ensures a * b <= a * c
  {
  }

  /** `StockBatch.save`: on the first save the remaining quantity is forced to the initial one. */
  function BatchOnSave(b: Batch, hasPk: bool): (r: Batch)
    ensures r.initial == b.initial && r.unitCost == b.unitCost && r.receivedDate == b.receivedDate
    ensures !hasPk ==> r.remaining == r.initial
    ensures hasPk ==> r == b
  {
    if !hasPk then b.(remaining := b.initial) else b
  }

  /** The model validators on `Stock`: a non-negative price and a discount between 0 and 100. */
  predicate StockFieldsValid(price: Cents, pct: Hundredths)
  {
    price >= 0 && 0 <= pct <= 10000
  }

  /** The model validators on `StockBatch`: at least one unit received and a non-negative cost. */
  predicate BatchFieldsValid(b: Batch)
  {
    b.initial >= 1 && b.unitCost >= 0
  }
}
