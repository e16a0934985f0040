/**
 * What `reserve_for_order`, `release_reservation` and `finalize_reservation`
 * (`src/stock/services.py`) do to the batch, reservation and history tables of one stock, as
 * functions of the tables before the call, and what those functions keep.
 */
module StockReservations {
  import opened Common
  import opened StockModels
  import opened StockLedger
  import opened StockFifo

  const ReserveReason := "Order reservation"
  const ReleaseReason := "Reservation released due to order cancellation"
  const FinalizeReason := "Order completed and stock finalized"

  /** The three tables the reservation services write. */
  datatype Tables = Tables(batches: seq<Batch>, reservations: seq<Reservation>, ledger: seq<Entry>)

  /** Every reservation names an existing batch. */
  predicate Linked(t: Tables)
  {
    forall j :: 0 <= j < |t.reservations| ==> t.reservations[j].batch < |t.batches|
  }

  lemma ConservedIsLinked(t: Tables)
    requires Conserved(t.batches, t.reservations, t.ledger)
    ensures Linked(t)
  {
  }

  // ---------------------------------------------------------------- reserve_for_order

  /** No batch gives more than it holds. */
  predicate Fits(b: seq<Batch>, ts: seq<Take>)
  {
    forall j :: 0 <= j < |b| ==> Taken(ts, j) <= b[j].remaining
  }

  /** The batches after the takes `ts`. */
  function Drawn(b: seq<Batch>, ts: seq<Take>): (r: seq<Batch>)
    requires Fits(b, ts)
    ensures |r| == |b|
  {
    seq(|b|, j requires 0 <= j < |b| => b[j].(remaining := b[j].remaining - Taken(ts, j)))
  }

  /** One active `StockReservation` per take. */
  function HeldFor(item: OrderItem, ts: seq<Take>): (r: seq<Reservation>)
    ensures |r| == |ts|
    ensures forall p :: 0 <= p < |ts| ==> r[p] == Reservation(item, ts[p].batch, ts[p].amount, true)
  {
    if ts == [] then []
    else HeldFor(item, ts[..|ts| - 1]) + [Reservation(item, ts[|ts| - 1].batch, ts[|ts| - 1].amount, true)]
  }

  /** The `reserve` row logged for a take from a batch that held `b[t.batch].remaining` before it. */
  function ReserveEntry(b: seq<Batch>, item: OrderItem, t: Take, user: Option<nat>, now: int): Entry
    requires t.batch < |b| && t.amount <= b[t.batch].remaining
  {
    Entry(Reserve, t.batch, -(t.amount as int), Some(b[t.batch].remaining), Some(b[t.batch].remaining - t.amount),
          Some(item.orderId), user, now, ReserveReason)
  }

  predicate TakesWithin(b: seq<Batch>, ts: seq<Take>)
  {
    forall p :: 0 <= p < |ts| ==> ts[p].batch < |b| && ts[p].amount <= b[ts[p].batch].remaining
  }

  function ReserveEntries(b: seq<Batch>, item: OrderItem, ts: seq<Take>, user: Option<nat>, now: int): (r: seq<Entry>)
    requires TakesWithin(b, ts)
    ensures |r| == |ts|
  {
    if ts == [] then []
    else ReserveEntries(b, item, ts[..|ts| - 1], user, now) + [ReserveEntry(b, item, ts[|ts| - 1], user, now)]
  }

  /** Takes from distinct batches: a batch gives what its one take says, or nothing. */
  lemma {:induction false} TakenDistinct(ts: seq<Take>, j: nat)
    requires forall p, q :: 0 <= p < q < |ts| ==> ts[p].batch != ts[q].batch
    ensures forall p :: 0 <= p < |ts| && ts[p].batch == j ==> Taken(ts, j) == ts[p].amount
  {
    if ts != [] {
      var n := |ts| - 1;
      if ts[n].batch == j {
        TakenElsewhere(ts[..n], j);
      } else {
        TakenDistinct(ts[..n], j);
      }
    }
  }

  /** The allocation never takes more from a batch than it holds. */
  lemma AllocationFits(b: seq<Batch>, needed: nat)
    ensures Fits(b, Allocation(b, needed)) && TakesWithin(b, Allocation(b, needed))
  {
    var r := Allocation(b, needed);
    AllocationFacts(b, needed);
    forall j | 0 <= j < |b| ensures Taken(r, j) <= b[j].remaining {
      TakenDistinct(r, j);
      if forall p :: 0 <= p < |r| ==> r[p].batch != j {
        TakenElsewhere(r, j);
      }
    }
  }

  lemma SumRemainingUpdate(b: seq<Batch>, i: nat, v: nat)
    requires i < |b|
    ensures SumRemaining(b[i := b[i].(remaining := v)]) == SumRemaining(b) - b[i].remaining + v
  {
    var n := |b| - 1;
    if i < n {
      assert b[i := b[i].(remaining := v)][..n] == b[..n][i := b[i].(remaining := v)];
      SumRemainingUpdate(b[..n], i, v);
    } else {
      assert b[i := b[i].(remaining := v)][..n] == b[..n];
    }
  }

  lemma {:induction false} DrawnTotal(b: seq<Batch>, ts: seq<Take>)
    requires Fits(b, ts) && forall p :: 0 <= p < |ts| ==> ts[p].batch < |b|
    ensures SumRemaining(Drawn(b, ts)) + SumTakes(ts) == SumRemaining(b)
  {
    if ts == [] {
      assert Drawn(b, ts) == b;
    } else {
      var n := |ts| - 1;
      var t := ts[n];
      TakesAppend(ts[..n], t);
      assert ts[..n] + [t] == ts;
      DrawnTotal(b, ts[..n]);
      var d := Drawn(b, ts[..n]);
      assert Drawn(b, ts) == d[t.batch := d[t.batch].(remaining := d[t.batch].remaining - t.amount)];
      SumRemainingUpdate(d, t.batch, d[t.batch].remaining - t.amount);
    }
  }

  /** A successful reservation lowers the stock's total by exactly the ordered quantity. */
  lemma AllocationLowersTotal(b: seq<Batch>, needed: nat)
    requires needed <= SumRemaining(b)
    ensures Fits(b, Allocation(b, needed))
    ensures SumRemaining(Drawn(b, Allocation(b, needed))) == SumRemaining(b) - needed
  {
    AllocationFacts(b, needed);
    AllocationFits(b, needed);
    DrawnTotal(b, Allocation(b, needed));
  }

  /** The takes of the first `k` passes of the loop of `reserve_for_order`, which reserved `reserved`. */
  ghost predicate ReservePlanned(b0: seq<Batch>, needed: nat, k: nat, done: seq<Take>, reserved: nat)
  {
    var order := FifoOrder(b0);
    && k <= |order| && |done| == k
    && reserved == SumTakes(done) <= needed
    && done + Plan(b0, order[k..], needed - reserved) == Allocation(b0, needed)
    && (forall p :: 0 <= p < k ==> done[p].batch == order[p])
    && Fits(b0, done) && TakesWithin(b0, done)
  }

  /** The tables `t` are the tables before the call with the takes `done` applied. */
  ghost predicate ReserveApplied(b0: seq<Batch>, res0: seq<Reservation>, l0: seq<Entry>, item: OrderItem,
                                 user: Option<nat>, now: int, done: seq<Take>, t: Tables)
  {
    && Fits(b0, done) && TakesWithin(b0, done)
    && t.batches == Drawn(b0, done)
    && t.reservations == res0 + HeldFor(item, done)
    && t.ledger == l0 + ReserveEntries(b0, item, done, user, now)
  }

  /** The next batch in the order is still untouched and has stock. */
  lemma ReserveNextUntouched(b0: seq<Batch>, needed: nat, k: nat, done: seq<Take>, reserved: nat)
    requires ReservePlanned(b0, needed, k, done, reserved) && k < |FifoOrder(b0)|
    ensures var x := FifoOrder(b0)[k]; x < |b0| && b0[x].remaining > 0 && Taken(done, x) == 0
  {
    var order := FifoOrder(b0);
    var x := order[k];
    assert x in order;
    TakenElsewhere(done, x);
  }

  /** The plan still ahead loses its first take. */
  lemma PlanAdvance(b0: seq<Batch>, order: seq<nat>, k: nat, needed: nat, reserved: nat, done: seq<Take>)
    requires Indices(b0, order) && k < |order| && reserved < needed
    requires done + Plan(b0, order[k..], needed - reserved) == Plan(b0, order, needed)
    ensures var can := Min(b0[order[k]].remaining, needed - reserved);
      (done + [Take(order[k], can)]) + Plan(b0, order[k + 1..], needed - (reserved + can)) == Plan(b0, order, needed)
  {
    assert order[k..][1..] == order[k + 1..];
  }

  lemma PlannedStep(b0: seq<Batch>, needed: nat, k: nat, done: seq<Take>, reserved: nat)
    requires ReservePlanned(b0, needed, k, done, reserved) && k < |FifoOrder(b0)| && reserved < needed
    ensures var x := FifoOrder(b0)[k];
      x < |b0| && Taken(done, x) == 0 &&
      var can := Min(b0[x].remaining, needed - reserved);
      ReservePlanned(b0, needed, k + 1, done + [Take(x, can)], reserved + can)
  {
    var order := FifoOrder(b0);
    ReserveNextUntouched(b0, needed, k, done, reserved);
    var x := order[k];
    var can := Min(b0[x].remaining, needed - reserved);
    TakesAppend(done, Take(x, can));
    PlanAdvance(b0, order, k, needed, reserved, done);
    assert (done + [Take(x, can)])[..k] == done;
  }

  /**
   * One pass of the loop: `can` units of batch `x`, which held `before`, go into a new active
   * reservation and a `reserve` row.
   */
  function ReserveOne(t: Tables, x: nat, can: nat, before: nat, item: OrderItem, user: Option<nat>, now: int): Tables
    requires x < |t.batches| && can <= before
  {
    Tables(t.batches[x := t.batches[x].(remaining := before - can)],
           t.reservations + [Reservation(item, x, can, true)],
           t.ledger + [Entry(Reserve, x, -(can as int), Some(before), Some(before - can), Some(item.orderId),
                             user, now, ReserveReason)])
  }

  /** A take from a batch nothing was taken from, within what it holds, still fits. */
  lemma FitsStep(b0: seq<Batch>, done: seq<Take>, x: nat, can: nat)
    requires Fits(b0, done) && TakesWithin(b0, done)
    requires x < |b0| && Taken(done, x) == 0 && can <= b0[x].remaining
    ensures Fits(b0, done + [Take(x, can)]) && TakesWithin(b0, done + [Take(x, can)])
    ensures Drawn(b0, done + [Take(x, can)]) == Drawn(b0, done)[x := b0[x].(remaining := b0[x].remaining - can)]
  {
    var done' := done + [Take(x, can)];
    TakesAppend(done, Take(x, can));
    assert Fits(b0, done');
    forall p | 0 <= p < |done'| ensures done'[p].batch < |b0| && done'[p].amount <= b0[done'[p].batch].remaining {
      if p < |done| {
        assert done'[p] == done[p];
      }
    }
    var d, e := Drawn(b0, done'), Drawn(b0, done)[x := b0[x].(remaining := b0[x].remaining - can)];
    assert forall j :: 0 <= j < |b0| ==> d[j] == e[j];
  }

  /** Drawing one more take from an untouched batch. */
  lemma AppliedStep(b0: seq<Batch>, res0: seq<Reservation>, l0: seq<Entry>, item: OrderItem,
                    user: Option<nat>, now: int, done: seq<Take>, t: Tables, x: nat, can: nat)
    requires ReserveApplied(b0, res0, l0, item, user, now, done, t)
    requires x < |b0| && Taken(done, x) == 0 && can <= b0[x].remaining
    ensures x < |t.batches| && t.batches[x] == b0[x]
    ensures ReserveApplied(b0, res0, l0, item, user, now, done + [Take(x, can)],
                           ReserveOne(t, x, can, b0[x].remaining, item, user, now))
  {
    var done' := done + [Take(x, can)];
    FitsStep(b0, done, x, can);
    assert done'[..|done|] == done;
    assert HeldFor(item, done') == HeldFor(item, done) + [Reservation(item, x, can, true)];
    assert ReserveEntries(b0, item, done', user, now)
      == ReserveEntries(b0, item, done, user, now) + [ReserveEntry(b0, item, Take(x, can), user, now)];
  }

  lemma ConservedStep(t: Tables, x: nat, can: nat, item: OrderItem, user: Option<nat>, now: int)
    requires Conserved(t.batches, t.reservations, t.ledger)
    requires x < |t.batches| && 1 <= can <= t.batches[x].remaining
    ensures var t' := ReserveOne(t, x, can, t.batches[x].remaining, item, user, now);
      Conserved(t'.batches, t'.reservations, t'.ledger)
  {
    var before := t.batches[x].remaining;
    ReserveKeeps(t.batches, t.reservations, t.ledger, x, can, item,
                 Entry(Reserve, x, -(can as int), Some(before), Some(before - can), Some(item.orderId), user, now,
                       ReserveReason));
  }

  /** One pass of the loop keeps the progress description. */
  lemma ReserveStep(b0: seq<Batch>, res0: seq<Reservation>, l0: seq<Entry>, item: OrderItem,
                    user: Option<nat>, now: int, k: nat, done: seq<Take>, reserved: nat, t: Tables)
    requires ReservePlanned(b0, item.quantity, k, done, reserved)
    requires ReserveApplied(b0, res0, l0, item, user, now, done, t)
    requires Conserved(t.batches, t.reservations, t.ledger)
    requires k < |FifoOrder(b0)| && reserved < item.quantity
    ensures var x := FifoOrder(b0)[k];
      && x < |b0| && x < |t.batches| && t.batches[x] == b0[x]
      && 1 <= Min(b0[x].remaining, item.quantity - reserved) <= b0[x].remaining
    ensures var x := FifoOrder(b0)[k]; var can := Min(b0[x].remaining, item.quantity - reserved);
      ReservePlanned(b0, item.quantity, k + 1, done + [Take(x, can)], reserved + can)
    ensures var x := FifoOrder(b0)[k]; var can := Min(b0[x].remaining, item.quantity - reserved);
      ReserveApplied(b0, res0, l0, item, user, now, done + [Take(x, can)],
                     ReserveOne(t, x, can, b0[x].remaining, item, user, now))
    ensures var x := FifoOrder(b0)[k]; var can := Min(b0[x].remaining, item.quantity - reserved);
      var t' := ReserveOne(t, x, can, b0[x].remaining, item, user, now);
      Conserved(t'.batches, t'.reservations, t'.ledger)
  {
    var x := FifoOrder(b0)[k];
    PlannedStep(b0, item.quantity, k, done, reserved);
    ReserveNextUntouched(b0, item.quantity, k, done, reserved);
    var can := Min(b0[x].remaining, item.quantity - reserved);
    AppliedStep(b0, res0, l0, item, user, now, done, t, x, can);
    ConservedStep(t, x, can, item, user, now);
  }

  /** The loop invariant of `reserve_batches`: the plan so far, its effect on the tables, and the invariant. */
  ghost predicate ReserveProgress(t0: Tables, item: OrderItem, user: Option<nat>, now: int,
                                  k: nat, done: seq<Take>, reserved: nat, t: Tables)
  {
    && ReservePlanned(t0.batches, item.quantity, k, done, reserved)
    && ReserveApplied(t0.batches, t0.reservations, t0.ledger, item, user, now, done, t)
    && Conserved(t.batches, t.reservations, t.ledger)
  }

  /** One pass of the loop, taking `can` units from batch `x`, keeps the loop invariant. */
  lemma ReserveAdvance(t0: Tables, item: OrderItem, user: Option<nat>, now: int,
                       k: nat, done: seq<Take>, reserved: nat, t: Tables, x: nat, can: nat, t': Tables)
    requires k < |FifoOrder(t0.batches)| && reserved < item.quantity && x == FifoOrder(t0.batches)[k]
    requires x < |t.batches| && can == Min(t.batches[x].remaining, item.quantity - reserved)
    requires t' == ReserveOne(t, x, can, t.batches[x].remaining, item, user, now)
    ensures ReserveProgress(t0, item, user, now, k, done, reserved, t) ==>
      ReserveProgress(t0, item, user, now, k + 1, done + [Take(x, can)], reserved + can, t')
  {
    if ReserveProgress(t0, item, user, now, k, done, reserved, t) {
      ReserveStep(t0.batches, t0.reservations, t0.ledger, item, user, now, k, done, reserved, t);
    }
  }

  /** When the loop stops, it has made the whole allocation and reserved `min(needed, stock)`. */
  lemma ReserveEnd(b0: seq<Batch>, item: OrderItem, k: nat, done: seq<Take>, reserved: nat)
    requires ReservePlanned(b0, item.quantity, k, done, reserved)
    requires k == |FifoOrder(b0)| || reserved >= item.quantity
    ensures done == Allocation(b0, item.quantity)
    ensures reserved == Min(item.quantity, SumRemaining(b0))
  {
    PlanShape(b0, FifoOrder(b0), item.quantity);
    FifoHoldsAll(b0);
  }

  // ---------------------------------------------------------------- release and finalize

  /** The order item has an active reservation. */
  predicate HasActiveFor(res: seq<Reservation>, item: OrderItem)
  {
    exists j :: 0 <= j < |res| && res[j].item == item && res[j].isActive
  }

  /** Quantity the active reservations of `item` hold on batch `i`. */
  function HeldBy(res: seq<Reservation>, item: OrderItem, i: nat): nat
  {
    if res == [] then 0
    else
      var v := res[|res| - 1];
      HeldBy(res[..|res| - 1], item, i) + (if v.item == item && v.isActive && v.batch == i then v.quantity else 0)
  }

  /** Reservation `j` after a release or a finalisation of `item`. */
  function Closed(v: Reservation, item: OrderItem): Reservation
  {
    if v.item == item then v.(isActive := false) else v
  }

  /**
   * One pass of the loop of `release_reservation` with fresh reads: an active reservation of `item`
   * gives its quantity back to its batch, is deactivated and is logged as `release_reserve`.
   */
  function ReleaseOne(t: Tables, j: nat, item: OrderItem, user: Option<nat>, now: int): (r: Tables)
    requires Linked(t) && j < |t.reservations|
    ensures Linked(r) && |r.batches| == |t.batches| && |r.reservations| == |t.reservations|
    ensures forall j' :: 0 <= j' < |t.reservations| && j' != j ==> r.reservations[j'] == t.reservations[j']
  {
    var v := t.reservations[j];
    if v.item == item && v.isActive then
      var before := t.batches[v.batch].remaining;
      Tables(t.batches[v.batch := t.batches[v.batch].(remaining := before + v.quantity)],
             t.reservations[j := v.(isActive := false)],
             t.ledger + [Entry(ReleaseReserve, v.batch, v.quantity, Some(before), Some(before + v.quantity),
                               Some(item.orderId), user, now, ReleaseReason)])
    else t
  }

  function ReleaseFrom(t: Tables, k: nat, item: OrderItem, user: Option<nat>, now: int): (r: Tables)
    requires Linked(t) && k <= |t.reservations|
    ensures Linked(r) && |r.batches| == |t.batches| && |r.reservations| == |t.reservations|
    ensures forall j' :: k <= j' < |t.reservations| ==> r.reservations[j'] == t.reservations[j']
  {
    if k == 0 then t else ReleaseOne(ReleaseFrom(t, k - 1, item, user, now), k - 1, item, user, now)
  }

  /** `release_reservation(order_item)`, every write reading the current row. */
  function Release(t: Tables, item: OrderItem, user: Option<nat>, now: int): Tables
    requires Linked(t)
  {
    ReleaseFrom(t, |t.reservations|, item, user, now)
  }

  /** One pass of the loop of `finalize_reservation`: deactivate and log `sold`; batches untouched. */
  function FinalizeOne(t: Tables, j: nat, item: OrderItem, user: Option<nat>, now: int): (r: Tables)
    requires Linked(t) && j < |t.reservations|
    ensures Linked(r) && r.batches == t.batches && |r.reservations| == |t.reservations|
    ensures forall j' :: 0 <= j' < |t.reservations| && j' != j ==> r.reservations[j'] == t.reservations[j']
  {
    var v := t.reservations[j];
    if v.item == item && v.isActive then
      Tables(t.batches,
             t.reservations[j := v.(isActive := false)],
             t.ledger + [Entry(Sold, v.batch, -(v.quantity as int), None, None, Some(item.orderId), user, now, FinalizeReason)])
    else t
  }

  function FinalizeFrom(t: Tables, k: nat, item: OrderItem, user: Option<nat>, now: int): (r: Tables)
    requires Linked(t) && k <= |t.reservations|
    ensures Linked(r) && |r.batches| == |t.batches| && |r.reservations| == |t.reservations|
    ensures forall j' :: k <= j' < |t.reservations| ==> r.reservations[j'] == t.reservations[j']
  {
    if k == 0 then t else FinalizeOne(FinalizeFrom(t, k - 1, item, user, now), k - 1, item, user, now)
  }

  /** `finalize_reservation(order_item)`. */
  function Finalize(t: Tables, item: OrderItem, user: Option<nat>, now: int): Tables
    requires Linked(t)
  {
    FinalizeFrom(t, |t.reservations|, item, user, now)
  }

  /** One pass of the release loop keeps the invariant. */
  lemma ReleaseOneConserved(s: Tables, j: nat, item: OrderItem, user: Option<nat>, now: int)
    requires Conserved(s.batches, s.reservations, s.ledger) && j < |s.reservations|
    ensures Linked(s)
    ensures var r := ReleaseOne(s, j, item, user, now); Conserved(r.batches, r.reservations, r.ledger)
  {
    var v := s.reservations[j];
    if v.item == item && v.isActive {
      var i := v.batch;
      var e := Entry(ReleaseReserve, i, v.quantity, Some(s.batches[i].remaining),
                     Some(s.batches[i].remaining + v.quantity), Some(item.orderId), user, now, ReleaseReason);
      ReleaseKeeps(s.batches, s.reservations, s.ledger, j, e);
    }
  }

  /** The tables after the first `k` passes, returned as `r`, keep the invariant. */
  lemma {:induction false} ReleaseFromConserved(t: Tables, k: nat, item: OrderItem, user: Option<nat>, now: int)
    returns (r: Tables)
    requires Conserved(t.batches, t.reservations, t.ledger) && k <= |t.reservations|
    ensures Linked(t) && r == ReleaseFrom(t, k, item, user, now)
    ensures Conserved(r.batches, r.reservations, r.ledger)
  {
    if k == 0 {
      r := t;
    } else {
      var s := ReleaseFromConserved(t, k - 1, item, user, now);
      ReleaseOneConserved(s, k - 1, item, user, now);
      r := ReleaseOne(s, k - 1, item, user, now);
    }
  }


  lemma {:induction false} ReleaseFromCloses(t: Tables, k: nat, item: OrderItem, user: Option<nat>, now: int)
    requires Linked(t) && k <= |t.reservations|
    ensures var r := ReleaseFrom(t, k, item, user, now);
      forall j :: 0 <= j < k ==> r.reservations[j] == Closed(t.reservations[j], item)
  {
    if k > 0 {
      ReleaseFromCloses(t, k - 1, item, user, now);
    }
  }

  lemma {:induction false} ReleaseFromReturns(t: Tables, k: nat, item: OrderItem, user: Option<nat>, now: int)
    returns (r: Tables)
    requires Linked(t) && k <= |t.reservations|
    ensures r == ReleaseFrom(t, k, item, user, now)
    ensures forall i :: 0 <= i < |t.batches| ==>
      r.batches[i] == t.batches[i].(remaining := t.batches[i].remaining + HeldBy(t.reservations[..k], item, i))
  {
    if k == 0 {
      r := t;
    } else {
      var s := ReleaseFromReturns(t, k - 1, item, user, now);
      ReturnsStep(t, s, k, item, user, now);
      r := ReleaseOne(s, k - 1, item, user, now);
    }
  }

  lemma ReturnsStep(t: Tables, s: Tables, k: nat, item: OrderItem, user: Option<nat>, now: int)
    requires Linked(s) && 0 < k <= |t.reservations| == |s.reservations| && |s.batches| == |t.batches|
    requires s.reservations[k - 1] == t.reservations[k - 1]
    requires forall i :: 0 <= i < |t.batches| ==>
      s.batches[i] == t.batches[i].(remaining := t.batches[i].remaining + HeldBy(t.reservations[..k - 1], item, i))
    ensures var r := ReleaseOne(s, k - 1, item, user, now);
      forall i :: 0 <= i < |t.batches| ==>
        r.batches[i] == t.batches[i].(remaining := t.batches[i].remaining + HeldBy(t.reservations[..k], item, i))
  {
    assert t.reservations[..k][..k - 1] == t.reservations[..k - 1];
  }



  /** One pass of the finalize loop keeps the invariant. */
  lemma FinalizeOneConserved(s: Tables, j: nat, item: OrderItem, user: Option<nat>, now: int)
    requires Conserved(s.batches, s.reservations, s.ledger) && j < |s.reservations|
    ensures Linked(s)
    ensures var r := FinalizeOne(s, j, item, user, now); Conserved(r.batches, r.reservations, r.ledger)
  {
    var v := s.reservations[j];
    if v.item == item && v.isActive {
      var e := Entry(Sold, v.batch, -(v.quantity as int), None, None, Some(item.orderId), user, now, FinalizeReason);
      FinalizeKeeps(s.batches, s.reservations, s.ledger, j, e);
    }
  }

  /** The tables after the first `k` passes, returned as `r`, keep the invariant. */
  lemma {:induction false} FinalizeFromConserved(t: Tables, k: nat, item: OrderItem, user: Option<nat>, now: int)
    returns (r: Tables)
    requires Conserved(t.batches, t.reservations, t.ledger) && k <= |t.reservations|
    ensures Linked(t) && r == FinalizeFrom(t, k, item, user, now)
    ensures Conserved(r.batches, r.reservations, r.ledger)
  {
    if k == 0 {
      r := t;
    } else {
      var s := FinalizeFromConserved(t, k - 1, item, user, now);
      FinalizeOneConserved(s, k - 1, item, user, now);
      r := FinalizeOne(s, k - 1, item, user, now);
    }
  }


  lemma {:induction false} FinalizeFromCloses(t: Tables, k: nat, item: OrderItem, user: Option<nat>, now: int)
    requires Linked(t) && k <= |t.reservations|
    ensures var r := FinalizeFrom(t, k, item, user, now);
      && r.batches == t.batches
      && forall j :: 0 <= j < k ==> r.reservations[j] == Closed(t.reservations[j], item)
  {
    if k > 0 {
      FinalizeFromCloses(t, k - 1, item, user, now);
    }
  }

  lemma {:induction false} FinalizeFromSells(t: Tables, k: nat, item: OrderItem, user: Option<nat>, now: int)
    requires Linked(t) && k <= |t.reservations|
    ensures var r := FinalizeFrom(t, k, item, user, now);
      forall i :: 0 <= i < |t.batches| ==>
        KindSum(r.ledger, Sold, i) == KindSum(t.ledger, Sold, i) - HeldBy(t.reservations[..k], item, i)
  {
    if k > 0 {
      FinalizeFromSells(t, k - 1, item, user, now);
      assert t.reservations[..k][..k - 1] == t.reservations[..k - 1];
      var s := FinalizeFrom(t, k - 1, item, user, now);
      var v := s.reservations[k - 1];
      if v.item == item && v.isActive {
        var e := Entry(Sold, v.batch, -(v.quantity as int), None, None, Some(item.orderId), user, now, FinalizeReason);
        forall i | 0 <= i < |t.batches|
          ensures KindSum(s.ledger + [e], Sold, i) == KindSum(t.ledger, Sold, i) - HeldBy(t.reservations[..k], item, i)
        {
          KindSumAppend(s.ledger, e, Sold, i);
        }
      }
    }
  }

  /**
   * Releasing keeps the stock's invariant, deactivates every reservation of the item and leaves the
   * others alone, and gives each batch back exactly what the item's active reservations held there.
   */
  lemma ReleaseFacts(t: Tables, item: OrderItem, user: Option<nat>, now: int) returns (r: Tables)
    requires Conserved(t.batches, t.reservations, t.ledger)
    ensures r == Release(t, item, user, now)
    ensures Conserved(r.batches, r.reservations, r.ledger)
      && !HasActiveFor(r.reservations, item)
      && (forall j :: 0 <= j < |t.reservations| ==> r.reservations[j] == Closed(t.reservations[j], item))
      && (forall i :: 0 <= i < |t.batches| ==>
            r.batches[i] == t.batches[i].(remaining := t.batches[i].remaining + HeldBy(t.reservations, item, i)))
  {
    ConservedIsLinked(t);
    r := ReleaseFromConserved(t, |t.reservations|, item, user, now);
    ReleaseFromCloses(t, |t.reservations|, item, user, now);
    var r' := ReleaseFromReturns(t, |t.reservations|, item, user, now);
    assert t.reservations[..|t.reservations|] == t.reservations;
  }

  /**
   * Finalising keeps the invariant, deactivates every reservation of the item, leaves the batches
   * alone and moves what the item held on each batch into that batch's sold total.
   */
  lemma FinalizeFacts(t: Tables, item: OrderItem, user: Option<nat>, now: int) returns (r: Tables)
    requires Conserved(t.batches, t.reservations, t.ledger)
    ensures r == Finalize(t, item, user, now)
    ensures Conserved(r.batches, r.reservations, r.ledger)
      && r.batches == t.batches
      && !HasActiveFor(r.reservations, item)
      && (forall j :: 0 <= j < |t.reservations| ==> r.reservations[j] == Closed(t.reservations[j], item))
      && (forall i :: 0 <= i < |t.batches| ==>
            KindSum(r.ledger, Sold, i) == KindSum(t.ledger, Sold, i) - HeldBy(t.reservations, item, i))
  {
    ConservedIsLinked(t);
    r := FinalizeFromConserved(t, |t.reservations|, item, user, now);
    FinalizeFromCloses(t, |t.reservations|, item, user, now);
    FinalizeFromSells(t, |t.reservations|, item, user, now);
    assert t.reservations[..|t.reservations|] == t.reservations;
  }

  lemma {:induction false} IdleFrom(t: Tables, k: nat, item: OrderItem, user: Option<nat>, now: int)
    requires Linked(t) && k <= |t.reservations| && !HasActiveFor(t.reservations, item)
    ensures ReleaseFrom(t, k, item, user, now) == t && FinalizeFrom(t, k, item, user, now) == t
  {
    if k > 0 {
      IdleFrom(t, k - 1, item, user, now);
    }
  }

  /** With no active reservation for the item, both services change nothing. */
  lemma IdleChangesNothing(t: Tables, item: OrderItem, user: Option<nat>, now: int)
    requires Linked(t) && !HasActiveFor(t.reservations, item)
    ensures Release(t, item, user, now) == t && Finalize(t, item, user, now) == t
  {
    IdleFrom(t, |t.reservations|, item, user, now);
  }

  // ---------------------------------------------------------------- release_reservation as written

  /**
   * One pass of the loop of `release_reservation` as written: the batch's quantity comes from the
   * copy `b0` loaded with the reservations before the loop, not from the batch as it now stands.
   */
  function StaleReleaseOne(b0: seq<Batch>, t: Tables, j: nat, item: OrderItem, user: Option<nat>, now: int): (r: Tables)
    requires Linked(t) && |b0| == |t.batches| && j < |t.reservations|
    ensures Linked(r) && |r.batches| == |t.batches| && |r.reservations| == |t.reservations|
    ensures forall j' :: 0 <= j' < |t.reservations| && j' != j ==> r.reservations[j'] == t.reservations[j']
  {
    var v := t.reservations[j];
    if v.item == item && v.isActive then
      var before := b0[v.batch].remaining;
      Tables(t.batches[v.batch := b0[v.batch].(remaining := before + v.quantity)],
             t.reservations[j := v.(isActive := false)],
             t.ledger + [Entry(ReleaseReserve, v.batch, v.quantity, Some(before), Some(before + v.quantity),
                               Some(item.orderId), user, now, ReleaseReason)])
    else t
  }

  function StaleReleaseFrom(b0: seq<Batch>, t: Tables, k: nat, item: OrderItem, user: Option<nat>, now: int): (r: Tables)
    requires Linked(t) && |b0| == |t.batches| && k <= |t.reservations|
    ensures Linked(r) && |r.batches| == |t.batches| && |r.reservations| == |t.reservations|
    ensures forall j' :: k <= j' < |t.reservations| ==> r.reservations[j'] == t.reservations[j']
  {
    if k == 0 then t else StaleReleaseOne(b0, StaleReleaseFrom(b0, t, k - 1, item, user, now), k - 1, item, user, now)
  }

  /** A stale pass equals a fresh one when the copy still matches the batch it releases into. */
  lemma StaleOneAgrees(b0: seq<Batch>, t: Tables, j: nat, item: OrderItem, user: Option<nat>, now: int)
    requires Linked(t) && |b0| == |t.batches| && j < |t.reservations|
    requires Holds(t.reservations[j], item) ==> b0[t.reservations[j].batch] == t.batches[t.reservations[j].batch]
    ensures StaleReleaseOne(b0, t, j, item, user, now) == ReleaseOne(t, j, item, user, now)
  {
  }

  /**
   * The loop of `release_reservation` as the source runs it: `select_related('batch')` gives every
   * reservation its own copy of its batch, read before the loop, and `batch.save()` writes that
   * copy back whole; the copies are the batch table `t.batches` as it was read.
   */
  function ReleaseAsWritten(t: Tables, item: OrderItem, user: Option<nat>, now: int): Tables
    requires Linked(t)
  {
    StaleReleaseFrom(t.batches, t, |t.reservations|, item, user, now)
  }

  /** An order line of 5 units, reserved as 2 + 3 units from one batch of 10 received units. */
  const LostUpdateItem := OrderItem(1, 7, 5, 1000, None)

  function LostUpdateTables(): Tables
  {
    Tables([Batch(10, 5, 400, 0, 0, None, None)],
           [Reservation(LostUpdateItem, 0, 2, true), Reservation(LostUpdateItem, 0, 3, true)],
           [Entry(Restock, 0, 10, Some(0), Some(10), None, None, 0, "New batch added"),
            Entry(Reserve, 0, -2, Some(10), Some(8), Some(7), None, 1, ReserveReason),
            Entry(Reserve, 0, -3, Some(8), Some(5), Some(7), None, 2, ReserveReason)])
  }

  /** The example is a state the stock services can reach: it satisfies the invariant. */
  lemma LostUpdateTablesConserved()
    ensures var t := LostUpdateTables(); Conserved(t.batches, t.reservations, t.ledger)
  {
    var t := LostUpdateTables();
    var l, res := t.ledger, t.reservations;
    assert l[..2] == [l[0], l[1]] && l[..1] == [l[0]] && l[..0] == [];
    assert forall k :: KindSum(l[..1], k, 0) == (if k == Restock then 10 else 0);
    assert l[..2][..1] == l[..1];
    assert forall k :: KindSum(l[..2], k, 0) == (if k == Restock then 10 else if k == Reserve then -2 else 0);
    assert forall k :: KindSum(l, k, 0) == (if k == Restock then 10 else if k == Reserve then -5 else 0);
    assert res[..1] == [res[0]] && res[..0] == [];
    assert forall a :: HeldOn(res[..1], 0, a) == (if a then 2 else 0);
    assert forall a :: HeldOn(res, 0, a) == (if a then 5 else 0);
    assert BatchBalanced(t.batches, res, l, 0);
  }

  /** Released with fresh reads, the batch gets both reservations back: 5 + 2 + 3. */
  lemma ReleaseRestoresBoth()
    ensures Release(LostUpdateTables(), LostUpdateItem, None, 3).batches[0].remaining == 10
  {
    var t := LostUpdateTables();
    var r := ReleaseFromReturns(t, 2, LostUpdateItem, None, 3);
    assert t.reservations[..2] == t.reservations && t.reservations[..2][..1] == [t.reservations[0]];
    assert HeldBy(t.reservations[..1], LostUpdateItem, 0) == 2;
  }

  /**
   * As written, the second write-back starts again from the 5 units read before the loop: the batch
   * ends with 8 units, 2 fewer than were released.
   */
  lemma ReleaseAsWrittenLosesUnits()
    ensures ReleaseAsWritten(LostUpdateTables(), LostUpdateItem, None, 3).batches[0].remaining == 8
    ensures ReleaseAsWritten(LostUpdateTables(), LostUpdateItem, None, 3).ledger[4].after == Some(8)
  {
    var t := LostUpdateTables();
    assert StaleReleaseFrom(t.batches, t, 0, LostUpdateItem, None, 3) == t;
    var w1 := StaleReleaseFrom(t.batches, t, 1, LostUpdateItem, None, 3);
    assert w1.reservations[1] == t.reservations[1];
    assert |w1.ledger| == 4;
  }

  /** The history then records 10 received and 5 reserved and released, but the batch holds 8. */
  lemma ReleaseAsWrittenBreaksBalance()
    ensures var w := ReleaseAsWritten(LostUpdateTables(), LostUpdateItem, None, 3);
      !Conserved(w.batches, w.reservations, w.ledger)
  {
    var t := LostUpdateTables();
    var l := t.ledger;
    LostUpdateTablesConserved();
    assert BatchBalanced(t.batches, t.reservations, l, 0);
    ReleaseAsWrittenLosesUnits();
    var w := ReleaseAsWritten(t, LostUpdateItem, None, 3);
    assert StaleReleaseFrom(t.batches, t, 0, LostUpdateItem, None, 3) == t;
    var w1 := StaleReleaseFrom(t.batches, t, 1, LostUpdateItem, None, 3);
    assert w1.reservations[1] == t.reservations[1];
    assert w1.ledger == l + [w1.ledger[3]];
    assert w.ledger == w1.ledger + [w.ledger[4]];
    forall k | k != ReleaseReserve
      ensures KindSum(w.ledger, k, 0) == KindSum(l, k, 0)
    {
      KindSumAppend(l, w1.ledger[3], k, 0);
      KindSumAppend(w1.ledger, w.ledger[4], k, 0);
    }
    KindSumAppend(l, w1.ledger[3], ReleaseReserve, 0);
    KindSumAppend(w1.ledger, w.ledger[4], ReleaseReserve, 0);
    assert KindSum(w.ledger, ReleaseReserve, 0) == KindSum(l, ReleaseReserve, 0) + 5;
    assert !BatchBalanced(w.batches, w.reservations, w.ledger, 0);
  }

  /** The order line's active reservations sit on distinct batches. */
  predicate OnePerBatch(res: seq<Reservation>, item: OrderItem)
  {
    forall p, q :: 0 <= p < q < |res| && Holds(res[p], item) && Holds(res[q], item) ==> res[p].batch != res[q].batch
  }

  predicate Holds(v: Reservation, item: OrderItem)
  {
    v.item == item && v.isActive
  }

  /** None of the first `k` reservations releases into batch `i`. */
  predicate SparedBatch(res: seq<Reservation>, k: nat, item: OrderItem, i: nat)
    requires k <= |res|
  {
    forall p :: 0 <= p < k && Holds(res[p], item) ==> res[p].batch != i
  }

  /** Where the order line holds at most one reservation per batch, the source's loop is exact. */
  lemma ReleaseAsWrittenAgrees(t: Tables, item: OrderItem, user: Option<nat>, now: int)
    requires Linked(t) && OnePerBatch(t.reservations, item)
    ensures ReleaseAsWritten(t, item, user, now) == Release(t, item, user, now)
  {
    StaleAgrees(t, |t.reservations|, item, user, now);
  }

  lemma {:induction false} StaleAgrees(t: Tables, k: nat, item: OrderItem, user: Option<nat>, now: int)
    requires Linked(t) && k <= |t.reservations| && OnePerBatch(t.reservations, item)
    ensures StaleReleaseFrom(t.batches, t, k, item, user, now) == ReleaseFrom(t, k, item, user, now)
  {
    if k > 0 {
      StaleAgrees(t, k - 1, item, user, now);
      var s := ReleaseFrom(t, k - 1, item, user, now);
      var v := s.reservations[k - 1];
      assert v == t.reservations[k - 1];
      if Holds(v, item) {
        ReleaseSpares(t, k - 1, item, user, now, v.batch);
      }
      StaleOneAgrees(t.batches, s, k - 1, item, user, now);
    }
  }

  /** A batch none of the first `k` reservations points at still holds what it held. */
  lemma {:induction false} ReleaseSpares(t: Tables, k: nat, item: OrderItem, user: Option<nat>, now: int, i: nat)
    requires Linked(t) && k <= |t.reservations| && i < |t.batches|
    requires OnePerBatch(t.reservations, item)
    requires k < |t.reservations| && Holds(t.reservations[k], item) && t.reservations[k].batch == i
    ensures ReleaseFrom(t, k, item, user, now).batches[i] == t.batches[i]
  {
    if k > 0 {
      ReleaseSparesFrom(t, k, item, user, now, i);
    }
  }

  lemma {:induction false} ReleaseSparesFrom(t: Tables, k: nat, item: OrderItem, user: Option<nat>, now: int, i: nat)
    requires Linked(t) && k <= |t.reservations| && i < |t.batches| && SparedBatch(t.reservations, k, item, i)
    ensures ReleaseFrom(t, k, item, user, now).batches[i] == t.batches[i]
  {
    if k > 0 {
      ReleaseSparesFrom(t, k - 1, item, user, now, i);
      var s := ReleaseFrom(t, k - 1, item, user, now);
      assert s.reservations[k - 1] == t.reservations[k - 1];
    }
  }
}
