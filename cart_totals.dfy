/**
 * The cart figures of `src/cart/utils.py`: `round_decimal` (half-up to the cent),
 * `calculate_item_discount` and the totals of `calculate_cart_totals`. Prices are in cents and
 * discount percentages in hundredths of a percent, as their two-place `Decimal` columns hold them;
 * a discount is exact in millionths of the currency unit (cents times hundredths, over 100).
 */
module CartTotals {
  import opened Common
  import opened Decimals

  /** One cart line: its quantity and its book's `price` and `discount_percentage`. */
  datatype CartItem = CartItem(quantity: nat, price: int, discountPct: int)

  /** The figures `calculate_cart_totals` returns, the money ones in cents. */
  datatype Totals = Totals(itemsCount: nat, totalQuantity: nat, totalPrice: int, totalDiscount: int, totalAfterDiscount: int)

  /** The scale of a discount: `price * (pct / 100)` is exact in units of 10^-6. */
  const DiscountScale: nat := 6

  /** `round_decimal(value)` for the `Decimal` `units / 10^scale`: the nearest cent, halves away from zero. */
  function RoundDecimal(units: int, scale: nat): (r: int)
    ensures scale <= 2 ==> r == units * Pow10(2 - scale)
    ensures scale > 2 ==> IsHalfUpRounding(units, Pow10(scale - 2), r)
  {
    QuantizeHalfUp(units, scale, 2)
  }

  /** Halves go away from zero: 0.125 and -0.125 round to 0.13 and -0.13, while 0.124 rounds to 0.12. */
  lemma RoundDecimalHalves()
    ensures RoundDecimal(125, 3) == 13 && RoundDecimal(-125, 3) == -13 && RoundDecimal(124, 3) == 12
  {
    assert Pow10(1) == 10;
    assert RoundHalfUpNat(125, 10) == 13;
    assert RoundHalfUpNat(124, 10) == 12;
  }

  /** `get_subtotal()`: quantity times price, in cents. */
  function Subtotal(item: CartItem): int
  {
    item.quantity * item.price
  }

  /** `calculate_item_discount(item)`: `price * (pct / 100) * quantity`, in units of 10^-6. */
  function ItemDiscount(item: CartItem): int
  {
    item.price * item.discountPct * item.quantity
  }

  function SumQuantity(items: seq<CartItem>): nat
  {
    if items == [] then 0 else SumQuantity(items[..|items| - 1]) + items[|items| - 1].quantity
  }

  /** `total_price` before rounding: the subtotals summed from `Decimal('0.00')`. */
  function SumSubtotals(items: seq<CartItem>): int
  {
    if items == [] then 0 else SumSubtotals(items[..|items| - 1]) + Subtotal(items[|items| - 1])
  }

  /** `total_discount` before rounding, in units of 10^-6. */
  function SumDiscounts(items: seq<CartItem>): int
  {
    if items == [] then 0 else SumDiscounts(items[..|items| - 1]) + ItemDiscount(items[|items| - 1])
  }

  /**
   * `calculate_cart_totals` over the cart's items. The price total is already in cents, so rounding
   * keeps it; the discount total is rounded to the nearest cent; and the amount after discount,
   * rounded from the exact difference, is within a cent of the rounded price minus rounded discount.
   */
  function CalculateCartTotals(items: seq<CartItem>): (t: Totals)
    ensures t.itemsCount == |items| && t.totalQuantity == SumQuantity(items)
    ensures t.totalPrice == SumSubtotals(items)
    ensures 2 * Abs(t.totalDiscount * 10000 - SumDiscounts(items)) <= 10000
    ensures -1 <= t.totalAfterDiscount - (t.totalPrice - t.totalDiscount) <= 1
    ensures IsHalfUpRounding(SumDiscounts(items), 10000, t.totalDiscount)
    ensures IsHalfUpRounding(SumSubtotals(items) * 10000 - SumDiscounts(items), 10000, t.totalAfterDiscount)
  {
    assert DiscountScale - 2 == 4 && Pow10(4) == 10000;
    var price := SumSubtotals(items) * 10000;
    var discount := SumDiscounts(items);
    var t := Totals(|items|, SumQuantity(items), RoundDecimal(price, DiscountScale), RoundDecimal(discount, DiscountScale),
                    RoundDecimal(price - discount, DiscountScale));
    ExactCents(SumSubtotals(items));
    ToNearestCent(discount);
    ToNearestCent(price - discount);
    t
  }

  /** A whole number of cents is its own rounding. */
  lemma ExactCents(cents: int)
    ensures RoundDecimal(cents * 10000, DiscountScale) == cents
  {
    assert DiscountScale - 2 == 4;
    assert Pow10(4) == 10000;
    QuantizeExact(cents, DiscountScale, 2);
  }

  /** A value in millionths rounds to a cent within half a cent of it. */
  lemma ToNearestCent(units: int)
    ensures 2 * Abs(RoundDecimal(units, DiscountScale) * 10000 - units) <= 10000
  {
    assert DiscountScale - 2 == 4;
    assert Pow10(4) == 10000;
  }

  /** A discount of 0% to 100% on a book of non-negative price is at most the line's subtotal. */
  lemma DiscountWithinSubtotal(item: CartItem)
    requires item.price >= 0 && 0 <= item.discountPct <= 10000
    ensures 0 <= ItemDiscount(item) <= Subtotal(item) * 10000
    ensures item.discountPct == 0 ==> ItemDiscount(item) == 0
    ensures item.discountPct == 10000 ==> ItemDiscount(item) == Subtotal(item) * 10000
  {
    var pq := item.price * item.quantity;
    assert ItemDiscount(item) == pq * item.discountPct;
    assert pq >= 0;
    MulMono(item.discountPct, 10000, pq);
  }

  lemma {:induction false} DiscountsWithinSubtotals(items: seq<CartItem>)
    requires forall i :: 0 <= i < |items| ==> items[i].price >= 0 && 0 <= items[i].discountPct <= 10000
    ensures 0 <= SumDiscounts(items) <= SumSubtotals(items) * 10000
  {
    if items != [] {
      DiscountsWithinSubtotals(items[..|items| - 1]);
      DiscountWithinSubtotal(items[|items| - 1]);
    }
  }

  /** With valid prices and percentages the cart's discount lies between 0 and its total price. */
  lemma TotalDiscountWithinPrice(items: seq<CartItem>)
    requires forall i :: 0 <= i < |items| ==> items[i].price >= 0 && 0 <= items[i].discountPct <= 10000
    ensures 0 <= CalculateCartTotals(items).totalDiscount <= CalculateCartTotals(items).totalPrice
    ensures 0 <= CalculateCartTotals(items).totalAfterDiscount <= CalculateCartTotals(items).totalPrice
  {
    var p := SumSubtotals(items);
    var d := SumDiscounts(items);
    DiscountsWithinSubtotals(items);
    QuantizeMonotone(0, d, DiscountScale, 2);
    QuantizeMonotone(d, p * 10000, DiscountScale, 2);
    QuantizeMonotone(0, p * 10000 - d, DiscountScale, 2);
    QuantizeMonotone(p * 10000 - d, p * 10000, DiscountScale, 2);
    QuantizeExact(0, DiscountScale, 2);
    QuantizeExact(p, DiscountScale, 2);
  }

  lemma {:induction false} NoDiscountsSumToZero(items: seq<CartItem>)
    requires forall i :: 0 <= i < |items| ==> items[i].discountPct == 0
    ensures SumDiscounts(items) == 0
  {
    if items != [] {
      NoDiscountsSumToZero(items[..|items| - 1]);
    }
  }

  /** A cart with no discounted book has no discount, and pays its total price. */
  lemma NoDiscountCart(items: seq<CartItem>)
    requires forall i :: 0 <= i < |items| ==> items[i].discountPct == 0
    ensures CalculateCartTotals(items).totalDiscount == 0
    ensures CalculateCartTotals(items).totalAfterDiscount == CalculateCartTotals(items).totalPrice
  {
    NoDiscountsSumToZero(items);
    QuantizeExact(0, DiscountScale, 2);
    QuantizeExact(SumSubtotals(items), DiscountScale, 2);
  }

  /**
   * The three rounded figures need not add up: a 5-cent book at 10% off shows a discount of 0.01,
   * yet 0.045 to pay rounds half up to 0.05.
   */
  lemma RoundedFiguresMayDisagree()
    ensures var t := CalculateCartTotals([CartItem(1, 5, 1000)]);
      t.totalPrice == 5 && t.totalDiscount == 1 && t.totalAfterDiscount == 5
  {
    var items := [CartItem(1, 5, 1000)];
    assert items[..0] == [];
    assert SumSubtotals(items) == 5 && SumDiscounts(items) == 5000;
    assert Pow10(4) == 10000;
    assert RoundHalfUpNat(5000, 10000) == 1;
    assert RoundHalfUpNat(45000, 10000) == 5;
  }
}
