/**
 * `StockService` and the stock functions of `src/stock/services.py` as methods of one `Stock`
 * (`src/stock/models.py`), whose batch, reservation, history and price-history tables are fields.
 * Every method runs inside `transaction.atomic`: when it fails, none of its writes remain.
 */
module StockService {
  import opened Common
  import opened StockModels
  import opened StockLedger
  import opened StockFifo
  import opened StockReservations

  datatype StockError =
    | NotEnoughStock       // `ValueError("Not enough stock")`
    | NotFound             // `get_object_or_404` finds no batch
    | MissingReceivedDate  // `received_date=None` violates the NOT NULL column

  /** The cleaned data of `RestockForm`. */
  datatype BatchForm = BatchForm(initial: nat, unitCost: Cents, notes: Option<string>, receivedDate: int)

  /** The dictionary `edit_stockBatch` returns. */
  datatype EditReply =
    | Updated(message: string)
    | NotUpdated(message: string)
    | Refused(error: string)

  const DefaultNote := "Restocked"
  const RestockReason := "New batch added"
  const EditReason := "Stock Batch Manual Edit"

  /** Each price change starts from where the previous one ended, and the last one is current. */
  predicate PriceChain(h: seq<PriceChange>, price: Cents, pct: Hundredths)
  {
    h == [] || (h[|h| - 1].newPrice == price && h[|h| - 1].newDiscount == pct
                && PriceChain(h[..|h| - 1], h[|h| - 1].oldPrice, h[|h| - 1].oldDiscount))
  }

  /** `notes if notes not in [None, ""] else "Restocked"`. */
  function BatchNotes(notes: Option<string>): (r: Option<string>)
    ensures r.Some? && r.value != ""
    ensures notes.Some? && notes.value != "" ==> r == notes
  {
    if notes == None || notes == Some("") then Some(DefaultNote) else notes
  }

  /** The batch `add_stock_batch` creates; its first save sets remaining to initial. */
  function NewBatch(quantity: nat, unitCost: Cents, receivedDate: int, publisher: Option<nat>,
                    notes: Option<string>, now: int): (r: Batch)
    ensures r.initial == quantity && r.remaining == quantity
  {
    BatchOnSave(Batch(quantity, quantity, unitCost, receivedDate, now, publisher, BatchNotes(notes)), false)
  }

  /** Whether the form differs from the batch in any of its four fields. */
  predicate Differs(b: Batch, form: BatchForm)
  {
    b.initial != form.initial || b.unitCost != form.unitCost || b.notes != form.notes
    || b.receivedDate != form.receivedDate
  }

  /** The form's cost, notes and date written to the batch. */
  function WithDetails(b: Batch, form: BatchForm): (r: Batch)
    ensures r.initial == b.initial && r.remaining == b.remaining
    ensures r.unitCost == form.unitCost && r.notes == form.notes && r.receivedDate == form.receivedDate
  {
    b.(unitCost := form.unitCost, notes := form.notes, receivedDate := form.receivedDate)
  }

  /**
   * The loop of `reserve_for_order` on the tables `t0` of one stock: walk the batches with stock
   * in query order, taking `min(remaining, needed - reserved)` from each until the line's quantity
   * is reserved. Returns the tables as the transaction leaves them and the quantity reserved.
   */
  method ReserveBatches(t0: Tables, item: OrderItem, user: Option<nat>, now: int) returns (t: Tables, reserved: nat)
    requires Conserved(t0.batches, t0.reservations, t0.ledger)
    ensures reserved == Min(item.quantity, SumRemaining(t0.batches))
    ensures Conserved(t.batches, t.reservations, t.ledger)
    ensures var plan := Allocation(t0.batches, item.quantity);
      && Fits(t0.batches, plan) && TakesWithin(t0.batches, plan)
      && t == Tables(Drawn(t0.batches, plan), t0.reservations + HeldFor(item, plan),
                     t0.ledger + ReserveEntries(t0.batches, item, plan, user, now))
  {
    var b0, res0, l0 := t0.batches, t0.reservations, t0.ledger;
    var needed := item.quantity;
    reserved := 0;
    var order := FifoOrder(b0);
    t := t0;
    ghost var done: seq<Take> := [];
    var k: nat := 0;
    assert HeldFor(item, []) == [] && Drawn(b0, []) == b0;
    while k < |order|
      invariant ReserveProgress(t0, item, user, now, k, done, reserved, t)
      decreases |order| - k
    {
      if reserved >= needed {
        break;
      }
      var x := order[k];
      var can := Min(t.batches[x].remaining, needed - reserved);
      ghost var before := t;
      t := ReserveOne(t, x, can, t.batches[x].remaining, item, user, now);
      ReserveAdvance(t0, item, user, now, k, done, reserved, before, x, can, t);
      reserved := reserved + can;
      done := done + [Take(x, can)];
      k := k + 1;
    }
    ReserveEnd(b0, item, k, done, reserved);
  }

  /**
   * The loop of `release_reservation` on the tables `t0`: each active reservation of the line
   * gives its quantity back to its batch, is deactivated and is logged as `release_reserve`.
   */
  method ReleaseRows(t0: Tables, item: OrderItem, user: Option<nat>, now: int) returns (t: Tables)
    requires Linked(t0)
    ensures Linked(t0) && t == Release(t0, item, user, now)
  {
    t := t0;
    var j := 0;
    while j < |t.reservations|
      invariant 0 <= j <= |t0.reservations| && t == ReleaseFrom(t0, j, item, user, now)
    {
      var v := t.reservations[j];
      if v.item == item && v.isActive {
        var i := v.batch;
        var before := t.batches[i].remaining;
        t := Tables(t.batches[i := t.batches[i].(remaining := before + v.quantity)],
                    t.reservations[j := v.(isActive := false)],
                    t.ledger + [Entry(ReleaseReserve, i, v.quantity, Some(before), Some(before + v.quantity),
                                      Some(item.orderId), user, now, ReleaseReason)]);
      }
      j := j + 1;
    }
  }

  /**
   * The loop of `finalize_reservation` on the tables `t0`: each active reservation of the line is
   * deactivated and logged as `sold`.
   */
  method FinalizeRows(t0: Tables, item: OrderItem, user: Option<nat>, now: int) returns (t: Tables)
    requires Linked(t0)
    ensures Linked(t0) && t == Finalize(t0, item, user, now)
  {
    t := t0;
    var j := 0;
    while j < |t.reservations|
      invariant 0 <= j <= |t0.reservations| && t == FinalizeFrom(t0, j, item, user, now)
    {
      var v := t.reservations[j];
      if v.item == item && v.isActive {
        t := Tables(t.batches, t.reservations[j := v.(isActive := false)],
                    t.ledger + [Entry(Sold, v.batch, -(v.quantity as int), None, None, Some(item.orderId), user, now,
                                      FinalizeReason)]);
      }
      j := j + 1;
    }
  }

  class Stock {
    var batches: seq<Batch>
    var reservations: seq<Reservation>
    var ledger: seq<Entry>
    var priceHistory: seq<PriceChange>
    var currentPrice: Cents
    var currentDiscount: Hundredths
    var isAvailable: bool
    var lastRestockDate: Option<int>

    ghost predicate Valid()
      reads this
    {
      && Conserved(batches, reservations, ledger)
      && PriceChain(priceHistory, currentPrice, currentDiscount)
    }

    function State(): Tables
      reads this
    {
      Tables(batches, reservations, ledger)
    }

    /** A new stock: no batches yet, so its first save leaves it unavailable. */
    constructor (price: Cents, pct: Hundredths)
      ensures Valid()
      ensures batches == [] && reservations == [] && ledger == [] && priceHistory == []
      ensures currentPrice == price && currentDiscount == pct
      ensures !isAvailable && lastRestockDate == None
    {
      batches, reservations, ledger, priceHistory := [], [], [], [];
      currentPrice, currentDiscount := price, pct;
      isAvailable := AvailableOnSave(TotalRemainingQuantity(false, []), price);
      lastRestockDate := None;
    }

    /** `Stock.save`: recompute `is_available` from the stored batches and price. */
    method Save()
      modifies this
      ensures isAvailable == AvailableOnSave(TotalRemainingQuantity(true, batches), currentPrice)
      ensures batches == old(batches) && reservations == old(reservations) && ledger == old(ledger)
      ensures priceHistory == old(priceHistory) && currentPrice == old(currentPrice)
      ensures currentDiscount == old(currentDiscount) && lastRestockDate == old(lastRestockDate)
    {
      isAvailable := AvailableOnSave(TotalRemainingQuantity(true, batches), currentPrice);
    }

    /**
     * `StockService.reserve_for_order`: reserve the line's quantity from the batches with stock,
     * oldest first. When the stock cannot cover it, the transaction is rolled back.
     */
    method ReserveForOrder(item: OrderItem, user: Option<nat>, now: int) returns (r: Result<nat, StockError>)
      requires Valid()
      modifies this
      ensures Valid()
      ensures r.Ok? <==> item.quantity <= SumRemaining(old(batches))
      ensures r.Ok? ==>
        var plan := Allocation(old(batches), item.quantity);
        && r.value == item.quantity
        && Fits(old(batches), plan) && TakesWithin(old(batches), plan)
        && batches == Drawn(old(batches), plan)
        && reservations == old(reservations) + HeldFor(item, plan)
        && ledger == old(ledger) + ReserveEntries(old(batches), item, plan, user, now)
        && isAvailable == AvailableOnSave(TotalRemainingQuantity(true, batches), currentPrice)
      ensures r.Err? ==>
        && r.error == NotEnoughStock
        && batches == old(batches) && reservations == old(reservations) && ledger == old(ledger)
        && isAvailable == old(isAvailable)
      ensures priceHistory == old(priceHistory) && currentPrice == old(currentPrice)
      ensures currentDiscount == old(currentDiscount) && lastRestockDate == old(lastRestockDate)
    {
      var t, reserved := ReserveBatches(State(), item, user, now);
      if reserved < item.quantity {
        return Err(NotEnoughStock);
      }
      batches, reservations, ledger := t.batches, t.reservations, t.ledger;
      Save();
      r := Ok(reserved);
    }

    /**
     * `StockService.release_reservation`: every active reservation of the line goes back to its
     * batch and is logged; the stock is saved when there was one. Each batch is read as it stands
     * (the source's stale copies are `ReleaseAsWritten`).
     */
    method ReleaseReservation(item: OrderItem, user: Option<nat>, now: int)
      requires Valid()
      modifies this
      ensures Valid()
      ensures old(Linked(State())) && State() == Release(old(State()), item, user, now)
      ensures isAvailable == if HasActiveFor(old(reservations), item)
                             then AvailableOnSave(TotalRemainingQuantity(true, batches), currentPrice)
                             else old(isAvailable)
      ensures priceHistory == old(priceHistory) && currentPrice == old(currentPrice)
      ensures currentDiscount == old(currentDiscount) && lastRestockDate == old(lastRestockDate)
    {
      var t0 := State();
      ConservedIsLinked(t0);
      if !HasActiveFor(reservations, item) {
        IdleChangesNothing(t0, item, user, now);
        return;
      }
      var t := ReleaseRows(t0, item, user, now);
      ghost var r := ReleaseFacts(t0, item, user, now);
      batches, reservations, ledger := t.batches, t.reservations, t.ledger;
      Save();
    }

    /**
     * `StockService.finalize_reservation`: every active reservation of the line is deactivated and
     * logged as sold. The batches already gave the units up; the stock is not saved.
     */
    method FinalizeReservation(item: OrderItem, user: Option<nat>, now: int)
      requires Valid()
      modifies this
      ensures Valid()
      ensures old(Linked(State())) && State() == Finalize(old(State()), item, user, now)
      ensures isAvailable == old(isAvailable) && priceHistory == old(priceHistory)
      ensures currentPrice == old(currentPrice) && currentDiscount == old(currentDiscount)
      ensures lastRestockDate == old(lastRestockDate)
    {
      var t0 := State();
      ConservedIsLinked(t0);
      if !HasActiveFor(reservations, item) {
        IdleChangesNothing(t0, item, user, now);
        return;
      }
      var t := FinalizeRows(t0, item, user, now);
      ghost var r := FinalizeFacts(t0, item, user, now);
      batches, reservations, ledger := t.batches, t.reservations, t.ledger;
    }

    /**
     * `add_stock_batch`: a new batch of `quantity` units, the restock date, a save, and a `restock`
     * row from the total before to the total after.
     */
    method AddStockBatch(quantity: nat, unitCost: Cents, user: Option<nat>, receivedDate: Option<int>,
                         notes: Option<string>, publisher: Option<nat>, now: int) returns (r: Result<nat, StockError>)
      requires Valid()
      modifies this
      ensures Valid()
      ensures receivedDate.None? ==> r == Err(MissingReceivedDate) && unchanged(this)
      ensures receivedDate.Some? ==>
        && r == Ok(|old(batches)|)
        && batches == old(batches) + [NewBatch(quantity, unitCost, receivedDate.value, publisher, notes, now)]
        && reservations == old(reservations)
        && ledger == old(ledger) + [Entry(ChangeType.Restock, |old(batches)|, quantity, Some(SumRemaining(old(batches))),
                                          Some(SumRemaining(old(batches)) + quantity), None, user, now, RestockReason)]
        && SumRemaining(batches) == SumRemaining(old(batches)) + quantity
        && lastRestockDate == receivedDate
        && isAvailable == AvailableOnSave(TotalRemainingQuantity(true, batches), currentPrice)
        && priceHistory == old(priceHistory) && currentPrice == old(currentPrice)
        && currentDiscount == old(currentDiscount)
    {
      if receivedDate.None? {
        return Err(MissingReceivedDate);
      }
      var beforeQty := TotalRemainingQuantity(true, batches);
      var batch := NewBatch(quantity, unitCost, receivedDate.value, publisher, notes, now);
      var index := |batches|;
      var e := Entry(ChangeType.Restock, index, quantity, Some(beforeQty), Some(beforeQty + quantity), None, user, now,
                     RestockReason);
      AddBatchKeeps(batches, reservations, ledger, batch, e);
      assert (batches + [batch])[..index] == batches;
      batches := batches + [batch];
      lastRestockDate := receivedDate;
      Save();
      ledger := ledger + [e];
      r := Ok(index);
    }

    /** `StockService.restock`: `add_stock_batch` in a transaction. */
    method Restock(quantity: nat, unitCost: Cents, user: Option<nat>, receivedDate: Option<int>,
                   notes: Option<string>, publisher: Option<nat>, now: int) returns (r: Result<nat, StockError>)
      requires Valid()
      modifies this
      ensures Valid()
      ensures receivedDate.None? ==> r == Err(MissingReceivedDate) && unchanged(this)
      ensures receivedDate.Some? ==>
        && r == Ok(|old(batches)|)
        && batches == old(batches) + [NewBatch(quantity, unitCost, receivedDate.value, publisher, notes, now)]
        && reservations == old(reservations)
        && ledger == old(ledger) + [Entry(ChangeType.Restock, |old(batches)|, quantity, Some(SumRemaining(old(batches))),
                                          Some(SumRemaining(old(batches)) + quantity), None, user, now, RestockReason)]
        && SumRemaining(batches) == SumRemaining(old(batches)) + quantity
        && lastRestockDate == receivedDate
        && isAvailable == AvailableOnSave(TotalRemainingQuantity(true, batches), currentPrice)
        && priceHistory == old(priceHistory) && currentPrice == old(currentPrice)
        && currentDiscount == old(currentDiscount)
    {
      r := AddStockBatch(quantity, unitCost, user, receivedDate, notes, publisher, now);
    }

    /**
     * `StockService.edit_stockBatch`: apply the form to batch `i`. A changed quantity is accepted
     * only while nothing has been taken from the batch, and is logged as `editstock`.
     */
    method EditStockBatch(i: nat, form: BatchForm, user: Option<nat>, now: int) returns (r: Result<EditReply, StockError>)
      requires Valid()
      modifies this
      ensures Valid()
      ensures i >= |old(batches)| ==> r == Err(NotFound) && unchanged(this)
      ensures i < |old(batches)| && !Differs(old(batches[i]), form) ==>
        r == Ok(NotUpdated("No changes detected.")) && unchanged(this)
      ensures i < |old(batches)| && old(batches[i]).initial != form.initial && old(batches[i]).initial != old(batches[i]).remaining ==>
        r == Ok(Refused("Cannot Edit the stock because Batch is Already in Use.")) && unchanged(this)
      ensures i < |old(batches)| && old(batches[i]).initial != form.initial && old(batches[i]).initial == old(batches[i]).remaining ==>
        && r == Ok(Updated("Batch updated with quantity correction."))
        && batches == old(batches)[i := WithDetails(old(batches[i]), form).(initial := form.initial, remaining := form.initial)]
        && ledger == old(ledger) + [Entry(EditStock, i, form.initial - old(batches[i]).initial,
                                          Some(old(batches[i]).initial), Some(form.initial), None, user, now, EditReason)]
        && reservations == old(reservations) && isAvailable == old(isAvailable)
      ensures i < |old(batches)| && old(batches[i]).initial == form.initial && Differs(old(batches[i]), form) ==>
        && r == Ok(Updated("Batch details updated successfully."))
        && batches == old(batches)[i := WithDetails(old(batches[i]), form)]
        && ledger == old(ledger) && reservations == old(reservations) && isAvailable == old(isAvailable)
      ensures priceHistory == old(priceHistory) && currentPrice == old(currentPrice)
      ensures currentDiscount == old(currentDiscount) && lastRestockDate == old(lastRestockDate)
    {
      if i >= |batches| {
        return Err(NotFound);
      }
      var batch := batches[i];
      if !Differs(batch, form) {
        return Ok(NotUpdated("No changes detected."));
      }
      if batch.initial != form.initial {
        if batch.initial == batch.remaining {
          var nb := WithDetails(batch, form).(initial := form.initial, remaining := form.initial);
          var e := Entry(EditStock, i, form.initial - batch.initial, Some(batch.initial), Some(form.initial), None,
                         user, now, EditReason);
          EditKeeps(batches, reservations, ledger, i, nb, e);
          batches := batches[i := nb];
          ledger := ledger + [e];
          return Ok(Updated("Batch updated with quantity correction."));
        } else {
          return Ok(Refused("Cannot Edit the stock because Batch is Already in Use."));
        }
      }
      DetailsEditKeeps(batches, reservations, ledger, i, WithDetails(batch, form));
      batches := batches[i := WithDetails(batch, form)];
      r := Ok(Updated("Batch details updated successfully."));
    }

    /** `update_stock_price`: set price and discount, save, and record the change. */
    method UpdateStockPrice(newPrice: Cents, newDiscount: Hundredths, user: Option<nat>, reason: string)
      requires Valid()
      modifies this
      ensures Valid()
      ensures currentPrice == newPrice && currentDiscount == newDiscount
      ensures priceHistory == old(priceHistory)
        + [PriceChange(old(currentPrice), newPrice, old(currentDiscount), newDiscount, user, reason)]
      ensures isAvailable == AvailableOnSave(TotalRemainingQuantity(true, batches), newPrice)
      ensures batches == old(batches) && reservations == old(reservations) && ledger == old(ledger)
      ensures lastRestockDate == old(lastRestockDate)
    {
      var oldPrice, oldDiscount := currentPrice, currentDiscount;
      currentPrice, currentDiscount := newPrice, newDiscount;
      Save();
      priceHistory := priceHistory + [PriceChange(oldPrice, newPrice, oldDiscount, newDiscount, user, reason)];
      assert priceHistory[..|priceHistory| - 1] == old(priceHistory);
    }

    /** `StockService.update_price`: `update_stock_price` in a transaction. */
    method UpdatePrice(newPrice: Cents, newDiscount: Hundredths, user: Option<nat>, reason: string)
      requires Valid()
      modifies this
      ensures Valid()
      ensures currentPrice == newPrice && currentDiscount == newDiscount
      ensures priceHistory == old(priceHistory)
        + [PriceChange(old(currentPrice), newPrice, old(currentDiscount), newDiscount, user, reason)]
      ensures isAvailable == AvailableOnSave(TotalRemainingQuantity(true, batches), newPrice)
      ensures batches == old(batches) && reservations == old(reservations) && ledger == old(ledger)
      ensures lastRestockDate == old(lastRestockDate)
    {
      UpdateStockPrice(newPrice, newDiscount, user, reason);
    }
  }
}
