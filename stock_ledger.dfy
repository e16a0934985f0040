/**
 * Sums over the history ledger and the reservations of one stock, and the conservation invariant
 * that every stock operation keeps.
 *
 * For every batch `i`, the ledger and the tables agree:
 *   restock + editstock entries of `i`                  == initial quantity of `i`
 *   -(reserve entries of `i`)                          == quantity of all reservations on `i`
 *   quantity of inactive reservations on `i`           == -(sold entries of `i`) + release entries of `i`
 *   restock + editstock + reserve + release of `i`     == remaining quantity of `i`
 * from which `remaining + active reserved + sold == initial` follows.
 */
module StockLedger {
  import opened Common
  import opened StockModels

  /** Sum of `quantity_change` over the entries of kind `k` on batch `b`. */
  function KindSum(l: seq<Entry>, k: ChangeType, b: nat): int
  {
    if l == [] then 0
    else KindSum(l[..|l| - 1], k, b) + EntryShare(l[|l| - 1], k, b)
  }

  function EntryShare(e: Entry, k: ChangeType, b: nat): int
  {
    if e.kind == k && e.batch == b then e.quantityChange else 0
  }

  /** The orders named on the entries of kind `k` on batch `b`. */
  function OrdersOf(l: seq<Entry>, k: ChangeType, b: nat): set<nat>
  {
    if l == [] then {}
    else OrdersOf(l[..|l| - 1], k, b) + EntryOrders(l[|l| - 1], k, b)
  }

  function EntryOrders(e: Entry, k: ChangeType, b: nat): set<nat>
  {
    if e.kind == k && e.batch == b && e.order.Some? then {e.order.value} else {}
  }

  /** Quantity held by the reservations on batch `b` whose `is_active` equals `active`. */
  function HeldOn(res: seq<Reservation>, b: nat, active: bool): nat
  {
    if res == [] then 0
    else HeldOn(res[..|res| - 1], b, active) + ReservationShare(res[|res| - 1], b, active)
  }

  function ReservationShare(r: Reservation, b: nat, active: bool): nat
  {
    if r.batch == b && r.isActive == active then r.quantity else 0
  }

  /** The sign each kind of entry carries: stock in is positive, stock out negative. */
  predicate WellSigned(e: Entry)
  {
    match e.kind
    case Restock => e.quantityChange >= 0
    case EditStock => true
    case Reserve => e.quantityChange <= -1
    case ReleaseReserve => e.quantityChange >= 1
    case Sold => e.quantityChange <= -1
  }

  predicate BatchBalanced(b: seq<Batch>, res: seq<Reservation>, l: seq<Entry>, i: nat)
    requires i < |b|
  {
    && KindSum(l, Restock, i) + KindSum(l, EditStock, i) == b[i].initial
    && -KindSum(l, Reserve, i) == HeldOn(res, i, true) + HeldOn(res, i, false)
    && HeldOn(res, i, false) == -KindSum(l, Sold, i) + KindSum(l, ReleaseReserve, i)
    && KindSum(l, Restock, i) + KindSum(l, EditStock, i) + KindSum(l, Reserve, i)
       + KindSum(l, ReleaseReserve, i) == b[i].remaining
  }

  predicate ReservationsWellFormed(b: seq<Batch>, res: seq<Reservation>)
  {
    forall j :: 0 <= j < |res| ==> res[j].batch < |b| && res[j].quantity >= 1
  }

  predicate EntriesWellFormed(b: seq<Batch>, l: seq<Entry>)
  {
    forall j :: 0 <= j < |l| ==> l[j].batch < |b| && WellSigned(l[j])
  }

  /** Every inactive reservation was closed by a `sold` or a `release_reserve` entry of its order. */
  predicate ClosedByLedger(res: seq<Reservation>, l: seq<Entry>)
  {
    forall j :: 0 <= j < |res| && !res[j].isActive ==>
      res[j].item.orderId in OrdersOf(l, Sold, res[j].batch) + OrdersOf(l, ReleaseReserve, res[j].batch)
  }

  predicate Conserved(b: seq<Batch>, res: seq<Reservation>, l: seq<Entry>)
  {
    && ReservationsWellFormed(b, res)
    && EntriesWellFormed(b, l)
    && ClosedByLedger(res, l)
    && forall i :: 0 <= i < |b| ==> BatchBalanced(b, res, l, i)
  }

  // ---------------------------------------------------------------- sums under append and update

  lemma KindSumAppend(l: seq<Entry>, e: Entry, k: ChangeType, b: nat)
    ensures KindSum(l + [e], k, b) == KindSum(l, k, b) + EntryShare(e, k, b)
    ensures OrdersOf(l + [e], k, b) == OrdersOf(l, k, b) + EntryOrders(e, k, b)
  {
    assert (l + [e])[..|l|] == l;
  }

  lemma HeldAppend(res: seq<Reservation>, r: Reservation, b: nat, active: bool)
    ensures HeldOn(res + [r], b, active) == HeldOn(res, b, active) + ReservationShare(r, b, active)
  {
    assert (res + [r])[..|res|] == res;
  }

  lemma {:induction false} HeldUpdate(res: seq<Reservation>, j: nat, r: Reservation, b: nat, active: bool)
    requires j < |res|
    ensures HeldOn(res[j := r], b, active)
      == HeldOn(res, b, active) - ReservationShare(res[j], b, active) + ReservationShare(r, b, active)
  {
    var n := |res| - 1;
    if j < n {
      assert res[j := r][..n] == res[..n][j := r];
      HeldUpdate(res[..n], j, r, b, active);
    } else {
      assert res[j := r][..n] == res[..n];
    }
  }

  lemma {:induction false} SumsBeyond(l: seq<Entry>, res: seq<Reservation>, n: nat, k: ChangeType, active: bool)
    requires forall j :: 0 <= j < |l| ==> l[j].batch < n
    requires forall j :: 0 <= j < |res| ==> res[j].batch < n
    ensures KindSum(l, k, n) == 0 && HeldOn(res, n, active) == 0
    decreases |l| + |res|
  {
    if l != [] {
      SumsBeyond(l[..|l| - 1], res, n, k, active);
    } else if res != [] {
      SumsBeyond(l, res[..|res| - 1], n, k, active);
    }
  }

  /** The signs of the entries fix the signs of the per-kind sums. */
  lemma {:induction false} SumSigns(l: seq<Entry>, b: nat)
    requires forall j :: 0 <= j < |l| ==> WellSigned(l[j])
    ensures KindSum(l, Restock, b) >= 0 && KindSum(l, Reserve, b) <= 0
    ensures KindSum(l, ReleaseReserve, b) >= 0 && KindSum(l, Sold, b) <= 0
  {
    if l != [] {
      SumSigns(l[..|l| - 1], b);
      assert WellSigned(l[|l| - 1]);
    }
  }

  /** A batch with a `release_reserve` entry has a positive released total. */
  lemma {:induction false} ReleasedOrdersNeedQuantity(l: seq<Entry>, b: nat)
    requires forall j :: 0 <= j < |l| ==> WellSigned(l[j])
    ensures KindSum(l, ReleaseReserve, b) == 0 ==> OrdersOf(l, ReleaseReserve, b) == {}
  {
    if l != [] {
      ReleasedOrdersNeedQuantity(l[..|l| - 1], b);
      SumSigns(l[..|l| - 1], b);
      assert WellSigned(l[|l| - 1]);
    }
  }

  // ---------------------------------------------------------------- consequences of the invariant

  /**
   * What every batch keeps: what remains, what is held by active reservations and what was sold add
   * up to what was received; hence `0 <= remaining <= initial`.
   */
  lemma BatchConservation(b: seq<Batch>, res: seq<Reservation>, l: seq<Entry>, i: nat)
    requires Conserved(b, res, l) && i < |b|
    ensures b[i].remaining + HeldOn(res, i, true) + -KindSum(l, Sold, i) == b[i].initial
    ensures -KindSum(l, Sold, i) >= 0
    ensures b[i].remaining <= b[i].initial
  {
    assert BatchBalanced(b, res, l, i);
    SumSigns(l, i);
  }

  // ---------------------------------------------------------------- the invariant under each step

  /** Adding a batch whose remaining equals its initial quantity, logged as `restock`. */
  lemma {:induction false} AddBatchKeeps(b: seq<Batch>, res: seq<Reservation>, l: seq<Entry>, nb: Batch, e: Entry)
    requires Conserved(b, res, l)
    requires nb.remaining == nb.initial
    requires e.kind == Restock && e.batch == |b| && e.quantityChange == nb.initial
    ensures Conserved(b + [nb], res, l + [e])
  {
    var b', l' := b + [nb], l + [e];
    forall i | 0 <= i < |b'| ensures BatchBalanced(b', res, l', i) {
      KindSumAppend(l, e, Restock, i);
      KindSumAppend(l, e, EditStock, i);
      KindSumAppend(l, e, Reserve, i);
      KindSumAppend(l, e, ReleaseReserve, i);
      KindSumAppend(l, e, Sold, i);
      if i < |b| {
        assert BatchBalanced(b, res, l, i);
      } else {
        SumsBeyond(l, res, i, Restock, true);
        SumsBeyond(l, res, i, EditStock, false);
        SumsBeyond(l, res, i, Reserve, true);
        SumsBeyond(l, res, i, ReleaseReserve, true);
        SumsBeyond(l, res, i, Sold, true);
      }
    }
    forall j | 0 <= j < |res| && !res[j].isActive
      ensures res[j].item.orderId in OrdersOf(l', Sold, res[j].batch) + OrdersOf(l', ReleaseReserve, res[j].batch)
    {
      KindSumAppend(l, e, Sold, res[j].batch);
      KindSumAppend(l, e, ReleaseReserve, res[j].batch);
    }
  }

  /** Taking `t` units from batch `i` into a new active reservation, logged as `reserve`. */
  lemma {:induction false} ReserveKeeps(b: seq<Batch>, res: seq<Reservation>, l: seq<Entry>, i: nat, t: nat,
                                        item: OrderItem, e: Entry)
    requires Conserved(b, res, l)
    requires i < |b| && 1 <= t <= b[i].remaining
    requires e.kind == Reserve && e.batch == i && e.quantityChange == -(t as int)
    ensures Conserved(b[i := b[i].(remaining := b[i].remaining - t)], res + [Reservation(item, i, t, true)], l + [e])
  {
    var b', res', l' := b[i := b[i].(remaining := b[i].remaining - t)], res + [Reservation(item, i, t, true)], l + [e];
    forall i' | 0 <= i' < |b'| ensures BatchBalanced(b', res', l', i') {
      assert BatchBalanced(b, res, l, i');
      KindSumAppend(l, e, Restock, i');
      KindSumAppend(l, e, EditStock, i');
      KindSumAppend(l, e, Reserve, i');
      KindSumAppend(l, e, ReleaseReserve, i');
      KindSumAppend(l, e, Sold, i');
      HeldAppend(res, Reservation(item, i, t, true), i', true);
      HeldAppend(res, Reservation(item, i, t, true), i', false);
    }
    forall j | 0 <= j < |res'| && !res'[j].isActive
      ensures res'[j].item.orderId in OrdersOf(l', Sold, res'[j].batch) + OrdersOf(l', ReleaseReserve, res'[j].batch)
    {
      KindSumAppend(l, e, Sold, res'[j].batch);
      KindSumAppend(l, e, ReleaseReserve, res'[j].batch);
    }
  }

  /** Returning active reservation `j` to its batch and deactivating it, logged as `release_reserve`. */
  lemma {:induction false} ReleaseKeeps(b: seq<Batch>, res: seq<Reservation>, l: seq<Entry>, j: nat, e: Entry)
    requires Conserved(b, res, l)
    requires j < |res| && res[j].isActive
    requires e.kind == ReleaseReserve && e.batch == res[j].batch && e.quantityChange == res[j].quantity
    requires e.order == Some(res[j].item.orderId)
    ensures res[j].batch < |b|
    ensures var i := res[j].batch;
      Conserved(b[i := b[i].(remaining := b[i].remaining + res[j].quantity)],
                res[j := res[j].(isActive := false)], l + [e])
  {
    var i, q := res[j].batch, res[j].quantity;
    var b', res', l' := b[i := b[i].(remaining := b[i].remaining + q)], res[j := res[j].(isActive := false)], l + [e];
    forall i' | 0 <= i' < |b'| ensures BatchBalanced(b', res', l', i') {
      assert BatchBalanced(b, res, l, i');
      KindSumAppend(l, e, Restock, i');
      KindSumAppend(l, e, EditStock, i');
      KindSumAppend(l, e, Reserve, i');
      KindSumAppend(l, e, ReleaseReserve, i');
      KindSumAppend(l, e, Sold, i');
      HeldUpdate(res, j, res[j].(isActive := false), i', true);
      HeldUpdate(res, j, res[j].(isActive := false), i', false);
    }
    forall j' | 0 <= j' < |res'| && !res'[j'].isActive
      ensures res'[j'].item.orderId in OrdersOf(l', Sold, res'[j'].batch) + OrdersOf(l', ReleaseReserve, res'[j'].batch)
    {
      KindSumAppend(l, e, Sold, res'[j'].batch);
      KindSumAppend(l, e, ReleaseReserve, res'[j'].batch);
    }
  }

  /** Deactivating active reservation `j` without returning stock, logged as `sold`. */
  lemma {:induction false} FinalizeKeeps(b: seq<Batch>, res: seq<Reservation>, l: seq<Entry>, j: nat, e: Entry)
    requires Conserved(b, res, l)
    requires j < |res| && res[j].isActive
    requires e.kind == Sold && e.batch == res[j].batch && e.quantityChange == -(res[j].quantity as int)
    requires e.order == Some(res[j].item.orderId)
    ensures Conserved(b, res[j := res[j].(isActive := false)], l + [e])
  {
    var res', l' := res[j := res[j].(isActive := false)], l + [e];
    forall i' | 0 <= i' < |b| ensures BatchBalanced(b, res', l', i') {
      assert BatchBalanced(b, res, l, i');
      KindSumAppend(l, e, Restock, i');
      KindSumAppend(l, e, EditStock, i');
      KindSumAppend(l, e, Reserve, i');
      KindSumAppend(l, e, ReleaseReserve, i');
      KindSumAppend(l, e, Sold, i');
      HeldUpdate(res, j, res[j].(isActive := false), i', true);
      HeldUpdate(res, j, res[j].(isActive := false), i', false);
    }
    forall j' | 0 <= j' < |res'| && !res'[j'].isActive
      ensures res'[j'].item.orderId in OrdersOf(l', Sold, res'[j'].batch) + OrdersOf(l', ReleaseReserve, res'[j'].batch)
    {
      KindSumAppend(l, e, Sold, res'[j'].batch);
      KindSumAppend(l, e, ReleaseReserve, res'[j'].batch);
    }
  }

  /**
   * Correcting the quantity of an untouched batch (`initial == remaining`) to `n`, logged as
   * `editstock` with the signed difference; the other batch fields may change with it.
   */
  lemma {:induction false} EditKeeps(b: seq<Batch>, res: seq<Reservation>, l: seq<Entry>, i: nat, nb: Batch, e: Entry)
    requires Conserved(b, res, l)
    requires i < |b| && b[i].initial == b[i].remaining && nb.initial == nb.remaining
    requires e.kind == EditStock && e.batch == i && e.quantityChange == nb.initial - b[i].initial
    ensures Conserved(b[i := nb], res, l + [e])
  {
    var b', l' := b[i := nb], l + [e];
    forall i' | 0 <= i' < |b'| ensures BatchBalanced(b', res, l', i') {
      assert BatchBalanced(b, res, l, i');
      KindSumAppend(l, e, Restock, i');
      KindSumAppend(l, e, EditStock, i');
      KindSumAppend(l, e, Reserve, i');
      KindSumAppend(l, e, ReleaseReserve, i');
      KindSumAppend(l, e, Sold, i');
    }
    forall j | 0 <= j < |res| && !res[j].isActive
      ensures res[j].item.orderId in OrdersOf(l', Sold, res[j].batch) + OrdersOf(l', ReleaseReserve, res[j].batch)
    {
      KindSumAppend(l, e, Sold, res[j].batch);
      KindSumAppend(l, e, ReleaseReserve, res[j].batch);
    }
  }

  /** Changing a batch's cost, notes or date, but not its quantities, keeps the invariant. */
  lemma DetailsEditKeeps(b: seq<Batch>, res: seq<Reservation>, l: seq<Entry>, i: nat, nb: Batch)
    requires Conserved(b, res, l)
    requires i < |b| && nb.initial == b[i].initial && nb.remaining == b[i].remaining
    ensures Conserved(b[i := nb], res, l)
  {
    var b' := b[i := nb];
    forall i' | 0 <= i' < |b'| ensures BatchBalanced(b', res, l, i') {
      assert BatchBalanced(b, res, l, i');
    }
  }

  /** An edit accepted on an untouched batch finds nothing held or sold from it. */
  lemma UntouchedBatchIsFree(b: seq<Batch>, res: seq<Reservation>, l: seq<Entry>, i: nat)
    requires Conserved(b, res, l) && i < |b| && b[i].initial == b[i].remaining
    ensures HeldOn(res, i, true) == 0 && KindSum(l, Sold, i) == 0
  {
    BatchConservation(b, res, l, i);
  }
}
