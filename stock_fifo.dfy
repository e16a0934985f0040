/**
 * The allocation `reserve_for_order` performs (`src/stock/services.py`): the batches with stock
 * left, oldest first (`order_by('received_date', 'created_at')`), are drained one after another
 * until the ordered quantity is covered.
 */
module StockFifo {
  import opened Common
  import opened StockModels

  /** The query's order: received date, then creation time; equal keys keep their table order. */
  predicate KeyLess(b: seq<Batch>, x: nat, y: nat)
    requires x < |b| && y < |b|
  {
    || b[x].receivedDate < b[y].receivedDate
    || (b[x].receivedDate == b[y].receivedDate && b[x].createdAt < b[y].createdAt)
    || (b[x].receivedDate == b[y].receivedDate && b[x].createdAt == b[y].createdAt && x < y)
  }

  predicate Indices(b: seq<Batch>, s: seq<nat>)
  {
    forall p :: 0 <= p < |s| ==> s[p] < |b|
  }

  predicate SortedBy(b: seq<Batch>, s: seq<nat>)
    requires Indices(b, s)
  {
    forall p, q :: 0 <= p < q < |s| ==> KeyLess(b, s[p], s[q])
  }

  /** In a sorted sequence, an element ordered before another sits before it. */
  lemma SortedIsPositional(b: seq<Batch>, s: seq<nat>, i: nat, j: nat)
    requires Indices(b, s) && SortedBy(b, s) && i < |s| && j < |s|
    ensures KeyLess(b, s[i], s[j]) ==> i < j
  {
    if j < i {
      assert KeyLess(b, s[j], s[i]);
    }
  }

  /** Places `x` among the sorted indices `s`. */
  function Insert(b: seq<Batch>, s: seq<nat>, x: nat): (r: seq<nat>)
    requires x < |b| && Indices(b, s) && SortedBy(b, s) && x !in s
    ensures Indices(b, r) && SortedBy(b, r) && |r| == |s| + 1
    ensures forall y :: y in r <==> y in s || y == x
  {
    if s == [] then [x]
    else if KeyLess(b, x, s[0]) then [x] + s
    else
      var t := Insert(b, s[1..], x);
      assert forall y :: y in s <==> y == s[0] || y in s[1..];
      assert KeyLess(b, s[0], x);
      forall q | 0 <= q < |t| ensures KeyLess(b, s[0], t[q]) {
        assert t[q] in t;
        if t[q] != x {
          var k :| 0 <= k < |s[1..]| && s[1..][k] == t[q];
          assert s[k + 1] == t[q];
        }
      }
      [s[0]] + t
  }

  /** The indices below `n` whose batch has stock left, in query order. */
  function SortFrom(b: seq<Batch>, n: nat): (r: seq<nat>)
    requires n <= |b|
    ensures Indices(b, r) && SortedBy(b, r)
    ensures forall y: nat :: y in r <==> y < n && b[y].remaining > 0
  {
    if n == 0 then []
    else
      var s := SortFrom(b, n - 1);
      if b[n - 1].remaining > 0 then Insert(b, s, n - 1) else s
  }

  /** `stock.batches.filter(remaining_quantity__gt=0).order_by('received_date', 'created_at')`. */
  function FifoOrder(b: seq<Batch>): (r: seq<nat>)
    ensures Indices(b, r) && SortedBy(b, r)
    ensures forall y: nat :: y in r <==> y < |b| && b[y].remaining > 0
    ensures forall p, q :: 0 <= p < q < |r| ==> r[p] != r[q]
  {
    SortFrom(b, |b|)
  }

  /** One step of the allocation: `amount` units reserved from batch `batch`. */
  datatype Take = Take(batch: nat, amount: nat)

  /**
   * The loop of `reserve_for_order` over the batches in `order`: each takes
   * `min(remaining, needed - reserved)`, and the loop stops once nothing more is needed.
   */
  function Plan(b: seq<Batch>, order: seq<nat>, needed: nat): seq<Take>
    requires Indices(b, order)
  {
    if order == [] || needed == 0 then []
    else
      var t := Min(b[order[0]].remaining, needed);
      [Take(order[0], t)] + Plan(b, order[1..], needed - t)
  }

  /** Units taken in total. */
  function SumTakes(ts: seq<Take>): nat
  {
    if ts == [] then 0 else SumTakes(ts[..|ts| - 1]) + ts[|ts| - 1].amount
  }

  /** Units taken from batch `j`. */
  function Taken(ts: seq<Take>, j: nat): nat
  {
    if ts == [] then 0
    else Taken(ts[..|ts| - 1], j) + (if ts[|ts| - 1].batch == j then ts[|ts| - 1].amount else 0)
  }

  /** Stock left in the batches of `order`. */
  function SumAt(b: seq<Batch>, order: seq<nat>): nat
    requires Indices(b, order)
  {
    if order == [] then 0 else b[order[0]].remaining + SumAt(b, order[1..])
  }

  lemma SumTakesPrepend(t: Take, ts: seq<Take>)
    ensures SumTakes([t] + ts) == t.amount + SumTakes(ts)
    ensures forall j :: Taken([t] + ts, j) == (if t.batch == j then t.amount else 0) + Taken(ts, j)
  {
    if ts != [] {
      var n := |ts| - 1;
      assert ([t] + ts)[..n + 1] == [t] + ts[..n];
      SumTakesPrepend(t, ts[..n]);
    }
  }

  lemma TakesAppend(ts: seq<Take>, t: Take)
    ensures SumTakes(ts + [t]) == SumTakes(ts) + t.amount
    ensures forall j :: Taken(ts + [t], j) == Taken(ts, j) + (if t.batch == j then t.amount else 0)
  {
    assert (ts + [t])[..|ts|] == ts;
  }

  /** A batch no take names gives nothing. */
  lemma {:induction false} TakenElsewhere(ts: seq<Take>, j: nat)
    requires forall p :: 0 <= p < |ts| ==> ts[p].batch != j
    ensures Taken(ts, j) == 0
  {
    if ts != [] {
      TakenElsewhere(ts[..|ts| - 1], j);
    }
  }

  /**
   * The shape of the allocation: the takes follow `order`, none takes more than its batch holds,
   * every take but the last empties its batch, and together they cover the need or all the stock.
   */
  lemma {:induction false} PlanShape(b: seq<Batch>, order: seq<nat>, needed: nat)
    requires Indices(b, order)
    ensures var r := Plan(b, order, needed);
      && |r| <= |order|
      && (forall p :: 0 <= p < |r| ==> r[p].batch == order[p] && r[p].amount <= b[order[p]].remaining)
      && (forall p :: 0 <= p < |r| - 1 ==> r[p].amount == b[order[p]].remaining)
      && SumTakes(r) == Min(needed, SumAt(b, order))
  {
    if order != [] && needed != 0 {
      var t := Min(b[order[0]].remaining, needed);
      var rest := Plan(b, order[1..], needed - t);
      PlanShape(b, order[1..], needed - t);
      SumTakesPrepend(Take(order[0], t), rest);
      if rest != [] {
        assert t == b[order[0]].remaining;
      }
    }
  }

  /** Over batches that all hold stock, every take is of at least one unit. */
  lemma {:induction false} PlanPositive(b: seq<Batch>, order: seq<nat>, needed: nat)
    requires Indices(b, order) && forall p :: 0 <= p < |order| ==> b[order[p]].remaining > 0
    ensures forall p :: 0 <= p < |Plan(b, order, needed)| ==> Plan(b, order, needed)[p].amount >= 1
  {
    if order != [] && needed != 0 {
      var t := Min(b[order[0]].remaining, needed);
      PlanPositive(b, order[1..], needed - t);
    }
  }

  /** Inserting a batch adds its stock to the sum. */
  lemma {:induction false} SumAtInsert(b: seq<Batch>, s: seq<nat>, x: nat)
    requires x < |b| && Indices(b, s) && SortedBy(b, s) && x !in s
    ensures SumAt(b, Insert(b, s, x)) == SumAt(b, s) + b[x].remaining
  {
    if s != [] && !KeyLess(b, x, s[0]) {
      SumAtInsert(b, s[1..], x);
      assert Insert(b, s, x)[1..] == Insert(b, s[1..], x);
    }
  }

  lemma {:induction false} SumAtSortFrom(b: seq<Batch>, n: nat)
    requires n <= |b|
    ensures SumAt(b, SortFrom(b, n)) == SumRemaining(b[..n])
  {
    if n > 0 {
      SumAtSortFrom(b, n - 1);
      assert b[..n][..n - 1] == b[..n - 1];
      if b[n - 1].remaining > 0 {
        SumAtInsert(b, SortFrom(b, n - 1), n - 1);
      }
    }
  }

  /** The batches the query returns hold all the stock there is. */
  lemma FifoHoldsAll(b: seq<Batch>)
    ensures SumAt(b, FifoOrder(b)) == SumRemaining(b)
  {
    SumAtSortFrom(b, |b|);
    assert b[..|b|] == b;
  }

  /** The allocation `reserve_for_order` makes from the stock `b` for `needed` units. */
  function Allocation(b: seq<Batch>, needed: nat): seq<Take>
  {
    Plan(b, FifoOrder(b), needed)
  }

  /**
   * What the allocation promises: it reserves `min(needed, stock)`, takes at least one unit and at
   * most what is left from each batch it touches, touches a batch at most once, and drains every
   * batch it touches except the last.
   */
  lemma AllocationFacts(b: seq<Batch>, needed: nat)
    ensures var r := Allocation(b, needed);
      && SumTakes(r) == Min(needed, SumRemaining(b))
      && (forall p :: 0 <= p < |r| ==> r[p].batch < |b| && 1 <= r[p].amount <= b[r[p].batch].remaining)
      && (forall p, q :: 0 <= p < q < |r| ==> r[p].batch != r[q].batch)
      && (forall p :: 0 <= p < |r| - 1 ==> r[p].amount == b[r[p].batch].remaining)
  {
    var order := FifoOrder(b);
    PlanShape(b, order, needed);
    FifoHoldsAll(b);
    assert forall p :: 0 <= p < |order| ==> order[p] in order;
    PlanPositive(b, order, needed);
  }

  /**
   * First in, first out: when the allocation touches a batch, every batch with stock that the query
   * orders before it is emptied completely.
   */
  lemma AllocationIsFifo(b: seq<Batch>, needed: nat, q: nat, x: nat)
    requires var r := Allocation(b, needed); q < |r| && r[q].batch < |b|
    requires x < |b| && b[x].remaining > 0 && KeyLess(b, x, Allocation(b, needed)[q].batch)
    ensures exists p :: 0 <= p < q && Allocation(b, needed)[p] == Take(x, b[x].remaining)
  {
    var order, r := FifoOrder(b), Allocation(b, needed);
    PlanShape(b, order, needed);
    assert x in order;
    var p :| 0 <= p < |order| && order[p] == x;
    assert order[q] == r[q].batch;
    SortedIsPositional(b, order, p, q);
    assert r[p] == Take(x, b[x].remaining);
  }
}
