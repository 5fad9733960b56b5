/** Splitting a market order changes nothing. */
module SplitInvariance {
  import opened Types
  import opened BookSpec
  import opened BookIndex
  import opened Matching

  /** The first k orders of the queue together receive min(quantity, their size). */
  lemma {:induction false} PrefixAllotted(orders: Orders, s: Side, q: seq<Id>, quantity: nat, k: nat)
    requires AllOpen(orders, s, q) && Distinct(q) && k <= |q|
    ensures var after := AfterFills(orders, Walk(orders, q, quantity));
            QueueSum(after, q[..k]) == QueueSum(orders, q[..k]) - Min(quantity, QueueSum(orders, q[..k]))
    decreases k
  {
    hide Walk, FilledAmount;
    var after := AfterFills(orders, Walk(orders, q, quantity));
    if k > 0 {
      PrefixAllotted(orders, s, q, quantity, k - 1);
      WalkAmount(orders, s, q, quantity, k - 1);
      assert q[..k] == q[..k - 1] + [q[k - 1]] && q[k - 1] in q;
      SumConcat(orders, q[..k - 1], [q[k - 1]]);
      SumConcat(after, q[..k - 1], [q[k - 1]]);
      assert AllOpen(orders, s, q[..k - 1]);
      SumNonNegative(orders, s, q[..k - 1]);
    }
  }

  /** Orders that are not live after the walk have nothing left. */
  lemma {:induction false} LiveQueueSum(orders: Orders, q: seq<Id>)
    requires forall id | id in q :: id in orders && (orders[id].Live() || orders[id].remaining == 0)
    ensures QueueSum(orders, LiveQueue(orders, q)) == QueueSum(orders, q)
  {
    if q != [] {
      assert q[0] in q;
      LiveQueueSum(orders, q[1..]);
      SumConcat(orders, if orders[q[0]].Live() then [q[0]] else [], LiveQueue(orders, q[1..]));
    }
  }

  lemma OpenAfterwards(orders: Orders, s: Side, q: seq<Id>, quantity: int, id: Id)
    requires AllOpen(orders, s, q) && Distinct(q) && id in q
    ensures var after := AfterFills(orders, Walk(orders, q, quantity));
            && id in after && after[id].side == s
            && after[id].remaining == orders[id].remaining - FilledAmount(Walk(orders, q, quantity), id)
            && (after[id].Live() || after[id].remaining == 0)
  {
    hide Walk, FilledAmount;
    WalkAmountRange(orders, s, q, quantity, id);
  }

  /** In the queue left by the first part, the second part gives an order its share of the rest. */
  lemma SecondPart(orders: Orders, s: Side, q: seq<Id>, q1: nat, q2: nat, k: nat)
    requires AllOpen(orders, s, q) && Distinct(q) && k < |q|
    ensures var after := AfterFills(orders, Walk(orders, q, q1));
            FilledAmount(Walk(after, LiveQueue(after, q), q2), q[k])
            == Allotment(orders, q, q1 + q2, k) - Allotment(orders, q, q1, k)
  {
    hide Walk, FilledAmount, Settle, LiveQueue;
    var after := AfterFills(orders, Walk(orders, q, q1));
    var rest := LiveQueue(after, q);
    forall id | id in q
      ensures id in after && after[id].side == s && (after[id].Live() || after[id].remaining == 0)
    {
      OpenAfterwards(orders, s, q, q1, id);
    }
    assert q[k] in q;
    OpenAfterwards(orders, s, q, q1, q[k]);
    WalkAmount(orders, s, q, q1, k);
    LiveQueueMembers(after, q);
    assert AllOpen(orders, s, q[..k]);
    SumNonNegative(orders, s, q[..k]);
    if after[q[k]].Live() {
      var head := LiveQueue(after, q[..k]);
      PositionInRest(after, q, k);
      assert rest[..|head|] == head && rest[|head|] == q[k];
      WalkAmount(after, s, rest, q2, |head|);
      LiveQueueSum(after, q[..k]);
      PrefixAllotted(orders, s, q, q1, k);
    } else {
      WalkElsewhere(after, rest, q2, q[k]);
    }
  }

  lemma PositionInRest(orders: Orders, q: seq<Id>, k: nat)
    requires k < |q| && q[k] in orders && orders[q[k]].Live()
    ensures var head := LiveQueue(orders, q[..k]);
            head + [q[k]] <= LiveQueue(orders, q)
  {
    assert q == q[..k] + [q[k]] + q[k + 1..];
    LiveQueueConcat(orders, q[..k] + [q[k]], q[k + 1..]);
    LiveQueueConcat(orders, q[..k], [q[k]]);
    assert LiveQueue(orders, [q[k]]) == [q[k]];
  }

  lemma SettleTwice(o: Order, a: nat, b: nat)
    requires a + b <= o.remaining
    ensures Settle(Settle(o, a), b) == Settle(o, a + b)
  {
  }

  /** Filled amounts of the two parts add up to those of the whole, order by order. */
  lemma AmountsAddUp(orders: Orders, s: Side, q: seq<Id>, q1: nat, q2: nat, id: Id)
    requires AllOpen(orders, s, q) && Distinct(q)
    ensures var first := Walk(orders, q, q1);
            var after := AfterFills(orders, first);
            var second := Walk(after, LiveQueue(after, q), q2);
            && FilledAmount(Walk(orders, q, q1 + q2), id) == FilledAmount(first, id) + FilledAmount(second, id)
            && FilledAmount(first, id) >= 0 && FilledAmount(second, id) >= 0
  {
    hide Walk, FilledAmount, LiveQueue;
    var after := AfterFills(orders, Walk(orders, q, q1));
    LiveQueueMembers(after, q);
    WalkAmountRange(orders, s, q, q1, id);
    if id in q {
      var k :| 0 <= k < |q| && q[k] == id;
      WalkAmount(orders, s, q, q1 + q2, k);
      WalkAmount(orders, s, q, q1, k);
      SecondPart(orders, s, q, q1, q2, k);
      assert AllOpen(orders, s, q[..k]);
    } else {
      WalkElsewhere(orders, q, q1 + q2, id);
      WalkElsewhere(orders, q, q1, id);
      WalkElsewhere(after, LiveQueue(after, q), q2, id);
    }
  }

  lemma OrdersAgree(orders: Orders, s: Side, q: seq<Id>, q1: nat, q2: nat)
    requires AllOpen(orders, s, q) && Distinct(q)
    ensures var after := AfterFills(orders, Walk(orders, q, q1));
            AfterFills(after, Walk(after, LiveQueue(after, q), q2)) == AfterFills(orders, Walk(orders, q, q1 + q2))
  {
    hide Walk, FilledAmount, LiveQueue, Settle;
    var after := AfterFills(orders, Walk(orders, q, q1));
    var w2 := Walk(after, LiveQueue(after, q), q2);
    var w := Walk(orders, q, q1 + q2);
    forall id | id in orders
      ensures AfterFills(after, w2)[id] == AfterFills(orders, w)[id]
    {
      AmountsAddUp(orders, s, q, q1, q2, id);
      WalkAmountRange(orders, s, q, q1 + q2, id);
      if id in q {
        SettleTwice(orders[id], FilledAmount(Walk(orders, q, q1), id), FilledAmount(w2, id));
      } else {
        SettleNothing(orders[id]);
      }
    }
  }

  lemma SettleNothing(o: Order)
    ensures Settle(o, 0) == o
  {
  }

  /** Market orders of q1 and then q2 on the same side leave the same book, and take the same
      amount from every order, as one market order of q1 + q2. */
  lemma SplitMarketOrder(b: Book, aggressor: Side, q1: nat, q2: nat, id: Id)
    requires Inv(b)
    ensures var b1 := Match(b, aggressor, q1);
            && Match(b1, aggressor, q2) == Match(b, aggressor, q1 + q2)
            && FilledAmount(MatchFills(b, aggressor, q1) + MatchFills(b1, aggressor, q2), id)
               == FilledAmount(MatchFills(b, aggressor, q1 + q2), id)
  {
    hide Walk, FilledAmount, LiveQueue, Settle, Refresh, Flat, AfterFills;
    var s := aggressor.Opposite();
    var q := Flat(b.Levels(s));
    var b1 := Match(b, aggressor, q1);
    var b2 := Match(b1, aggressor, q2);
    FlatIsTheOpenOrders(b, s);
    FlatRefresh(b1.orders, b.Levels(s));
    assert Flat(b1.Levels(s)) == LiveQueue(b1.orders, q);
    OrdersAgree(b.orders, s, q, q1, q2);
    AmountsAddUp(b.orders, s, q, q1, q2, id);
    FilledConcat(MatchFills(b, aggressor, q1), MatchFills(b1, aggressor, q2), id);
    MatchKeepsInv(b, aggressor, q1);
    MatchShrinks(b1, aggressor, q2);
    RefreshTwice(b1.orders, b2.orders, b.bids);
    RefreshTwice(b1.orders, b2.orders, b.asks);
  }
}

/** The greedy walk is the best allocation of the quantity it fills. */
module Optimality {
  import opened Types
  import opened BookSpec
  import opened BookIndex
  import opened Matching

  function Share(alloc: map<Id, int>, id: Id): int {
    if id in alloc then alloc[id] else 0
  }

  function SharedTotal(alloc: map<Id, int>, q: seq<Id>): int {
    if q == [] then 0 else Share(alloc, q[0]) + SharedTotal(alloc, q[1..])
  }

  /** n units at price p. */
  function Worth(p: real, n: int): real {
    p * (n as real)
  }

  /** Money that changes hands when each order in q gives its share. */
  function SharedValue(orders: Orders, alloc: map<Id, int>, q: seq<Id>): real {
    if q == [] then 0.0
    else Worth(PriceOf(orders, q[0]), Share(alloc, q[0])) + SharedValue(orders, alloc, q[1..])
  }

  function FillValue(fills: seq<Fill>): real {
    if fills == [] then 0.0 else Worth(fills[0].price, fills[0].quantity) + FillValue(fills[1..])
  }

  /** Any way of taking at most its remaining quantity from each order in q. */
  ghost predicate Allocation(orders: Orders, alloc: map<Id, int>, q: seq<Id>) {
    forall id | id in q :: 0 <= Share(alloc, id) <= Rem(orders, id)
  }

  /** p separates the orders the walk touches from those it does not exhaust, on side s. */
  ghost predicate Pivot(s: Side, orders: Orders, q: seq<Id>, quantity: int, p: real) {
    q != [] ==>
      var f := Min(Max(quantity, 0), Rem(orders, q[0]));
      && (f > 0 ==> !Better(s, p, PriceOf(orders, q[0])))
      && (f < Rem(orders, q[0]) ==> !Better(s, PriceOf(orders, q[0]), p))
      && Pivot(s, orders, q[1..], quantity - f, p)
  }

  lemma PrioritizedTail(s: Side, orders: Orders, q: seq<Id>)
    requires Prioritized(s, orders, q) && q != []
    ensures Prioritized(s, orders, q[1..])
    ensures forall id | id in q :: !Better(s, PriceOf(orders, id), PriceOf(orders, q[0]))
  {
    forall id | id in q
      ensures !Better(s, PriceOf(orders, id), PriceOf(orders, q[0]))
    {
      var j :| 0 <= j < |q| && q[j] == id;
    }
  }

  /** Once nothing is left to fill, any price that is no worse than the rest is a pivot. */
  lemma {:induction false} PivotDone(s: Side, orders: Orders, q: seq<Id>, quantity: int, p: real)
    requires quantity <= 0 && AllOpen(orders, s, q)
    requires forall id | id in q :: !Better(s, PriceOf(orders, id), p)
    ensures Pivot(s, orders, q, quantity, p)
  {
    if q != [] {
      PivotDone(s, orders, q[1..], quantity, p);
    }
  }

  lemma {:induction false} FindPivot(s: Side, orders: Orders, q: seq<Id>, quantity: int) returns (p: real)
    requires q != [] && AllOpen(orders, s, q) && Prioritized(s, orders, q)
    ensures Pivot(s, orders, q, quantity, p)
    ensures exists id :: id in q && PriceOf(orders, id) == p
  {
    assert q[0] in q;
    var p0 := PriceOf(orders, q[0]);
    PrioritizedTail(s, orders, q);
    var f := Min(Max(quantity, 0), Rem(orders, q[0]));
    if f < Rem(orders, q[0]) || |q| == 1 {
      p := p0;
      if |q| > 1 {
        PivotDone(s, orders, q[1..], quantity - f, p);
      }
    } else {
      p := FindPivot(s, orders, q[1..], quantity - f);
      var id :| id in q[1..] && PriceOf(orders, id) == p;
      assert id in q;
    }
  }

  lemma ScaleReal(a: real, b: real, c: real)
    requires a <= b && 0.0 <= c
    ensures a * c <= b * c
  {
  }

  /** x is no more than y on the ask side and no less on the bid side. */
  predicate NoWorse(s: Side, x: real, y: real) {
    if s.Sell? then x <= y else x >= y
  }

  /** One order: taking f instead of a, measured against the pivot price. */
  lemma OneOrder(s: Side, price: real, p: real, f: int, a: int, rem: int)
    requires 0 <= f <= rem && 0 <= a <= rem
    requires f > 0 ==> !Better(s, p, price)
    requires f < rem ==> !Better(s, price, p)
    ensures NoWorse(s, Worth(price, f) - Worth(price, a), Worth(p, f - a))
  {
    var d := (f - a) as real;
    assert price * (f as real) - price * (a as real) == price * d;
    if f != a {
      var gap := if f > a then d else -d;
      if (f > a) == s.Sell? {
        ScaleReal(price, p, gap);
      } else {
        ScaleReal(p, price, gap);
      }
    }
  }

  lemma AddGaps(s: Side, x: real, y: real, p: real, f: int, t: int)
    requires NoWorse(s, x, Worth(p, f)) && NoWorse(s, y, Worth(p, t))
    ensures NoWorse(s, x + y, Worth(p, f + t))
  {
    assert p * ((f + t) as real) == p * (f as real) + p * (t as real);
  }

  /** Value and quantity of the walk's fills less those of the other allocation. */
  function ValueGap(orders: Orders, q: seq<Id>, quantity: int, alloc: map<Id, int>): real {
    FillValue(Walk(orders, q, quantity)) - SharedValue(orders, alloc, q)
  }

  function QuantityGap(orders: Orders, q: seq<Id>, quantity: int, alloc: map<Id, int>): int {
    FilledTotal(Walk(orders, q, quantity)) - SharedTotal(alloc, q)
  }

  lemma GapsUnfold(orders: Orders, s: Side, q: seq<Id>, quantity: int, alloc: map<Id, int>, f: int)
    requires AllOpen(orders, s, q) && q != [] && f == Min(Max(quantity, 0), Rem(orders, q[0]))
    ensures var price := PriceOf(orders, q[0]);
            ValueGap(orders, q, quantity, alloc) ==
            Worth(price, f) - Worth(price, Share(alloc, q[0])) + ValueGap(orders, q[1..], quantity - f, alloc)
    ensures QuantityGap(orders, q, quantity, alloc) ==
            f - Share(alloc, q[0]) + QuantityGap(orders, q[1..], quantity - f, alloc)
  {
    assert q[0] in q;
  }

  /** Along a queue with a pivot, the walk's value beats another allocation's by at least the
      pivot price times the difference in quantity. */
  lemma {:induction false} Exchange(s: Side, orders: Orders, q: seq<Id>, quantity: int, alloc: map<Id, int>, p: real)
    requires AllOpen(orders, s, q) && Allocation(orders, alloc, q) && Pivot(s, orders, q, quantity, p)
    ensures NoWorse(s, ValueGap(orders, q, quantity, alloc), Worth(p, QuantityGap(orders, q, quantity, alloc)))
  {
    if q != [] {
      hide NoWorse, Worth, ValueGap, QuantityGap, Walk;
      var id := q[0];
      assert id in q;
      var f := Min(Max(quantity, 0), Rem(orders, id));
      var a := Share(alloc, id);
      var price := PriceOf(orders, id);
      Exchange(s, orders, q[1..], quantity - f, alloc, p);
      OneOrder(s, price, p, f, a, Rem(orders, id));
      GapsUnfold(orders, s, q, quantity, alloc, f);
      AddGaps(s, Worth(price, f) - Worth(price, a), ValueGap(orders, q[1..], quantity - f, alloc),
              p, f - a, QuantityGap(orders, q[1..], quantity - f, alloc));
    }
  }

  lemma EmptyQueue(orders: Orders, quantity: int, alloc: map<Id, int>)
    ensures FillValue(Walk(orders, [], quantity)) == 0.0 && SharedValue(orders, alloc, []) == 0.0
  {
  }

  /** A market BUY pays the least, and a market SELL earns the most, among all ways of taking
      the same total quantity from the open orders of the opposite side. */
  lemma MarketOrderIsOptimal(b: Book, aggressor: Side, quantity: int, alloc: map<Id, int>)
    requires Inv(b)
    requires Allocation(b.orders, alloc, Flat(b.Levels(aggressor.Opposite())))
    requires SharedTotal(alloc, Flat(b.Levels(aggressor.Opposite())))
             == FilledTotal(MatchFills(b, aggressor, quantity))
    ensures var paid := FillValue(MatchFills(b, aggressor, quantity));
            var other := SharedValue(b.orders, alloc, Flat(b.Levels(aggressor.Opposite())));
            if aggressor.Buy? then paid <= other else paid >= other
  {
    hide Walk, Pivot, Allocation, SharedValue, SharedTotal;
    var s := aggressor.Opposite();
    var q := Flat(b.Levels(s));
    FlatIsTheOpenOrders(b, s);
    if q != [] {
      var p := FindPivot(s, b.orders, q, quantity);
      Exchange(s, b.orders, q, quantity, alloc, p);
      assert QuantityGap(b.orders, q, quantity, alloc) == 0;
      assert Worth(p, 0) == 0.0;
    } else {
      EmptyQueue(b.orders, quantity, alloc);
    }
  }
}
