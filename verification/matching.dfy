/** Market orders: the greedy walk, what each resting order receives, splitting, and optimality. */
module Matching {
  import opened Types
  import opened BookSpec
  import opened BookIndex

  // ---- the flattened side ----

  lemma {:induction false} FlatMembers(ls: seq<Level>, id: Id)
    ensures id in Flat(ls) <==> Queued(ls, id)
  {
    if ls != [] {
      FlatMembers(ls[1..], id);
      if Queued(ls, id) && id !in ls[0].queue {
        var i :| 0 <= i < |ls| && id in ls[i].queue;
        assert ls[1..][i - 1] == ls[i];
      }
      if Queued(ls[1..], id) {
        var i :| 0 <= i < |ls[1..]| && id in ls[1..][i].queue;
        assert ls[1..][i] == ls[i + 1];
      }
    }
  }

  lemma {:induction false} FlatConcat(a: seq<Level>, b: seq<Level>)
    ensures Flat(a + b) == Flat(a) + Flat(b)
  {
    if a == [] {
      assert a + b == b;
    } else {
      assert (a + b)[1..] == a[1..] + b;
      FlatConcat(a[1..], b);
    }
  }

  lemma {:induction false} FlatRefresh(orders: Orders, ls: seq<Level>)
    ensures Flat(Refresh(orders, ls)) == LiveQueue(orders, Flat(ls))
  {
    if ls != [] {
      FlatRefresh(orders, ls[1..]);
      FlatConcat(RefreshOne(orders, ls[0]), Refresh(orders, ls[1..]));
      LiveQueueConcat(orders, ls[0].queue, Flat(ls[1..]));
      assert Flat(RefreshOne(orders, ls[0])) == LiveQueue(orders, ls[0].queue);
    }
  }

  function PriceOf(orders: Orders, id: Id): real {
    if id in orders then orders[id].price else 0.0
  }

  /** No order in the queue has a better price than one before it. */
  ghost predicate Prioritized(s: Side, orders: Orders, q: seq<Id>) {
    forall i, j | 0 <= i < j < |q| :: !Better(s, PriceOf(orders, q[j]), PriceOf(orders, q[i]))
  }

  ghost predicate AllOpen(orders: Orders, s: Side, q: seq<Id>) {
    forall id | id in q :: id in orders && orders[id].Live() && orders[id].side == s
  }

  ghost predicate LevelsOk(s: Side, ls: seq<Level>, orders: Orders) {
    Sorted(s, ls) && forall i | 0 <= i < |ls| :: LevelOk(s, ls[i], orders)
  }

  lemma LevelsOkTail(s: Side, ls: seq<Level>, orders: Orders)
    requires LevelsOk(s, ls, orders) && ls != []
    ensures LevelsOk(s, ls[1..], orders)
    ensures forall id | id in Flat(ls[1..]) :: id in orders && Better(s, ls[0].price, orders[id].price)
  {
    var rest := ls[1..];
    forall i | 0 <= i < |rest|
      ensures LevelOk(s, rest[i], orders) && Better(s, ls[0].price, rest[i].price)
    {
      assert rest[i] == ls[i + 1];
    }
    forall id | id in Flat(rest)
      ensures id in orders && Better(s, ls[0].price, orders[id].price)
    {
      FlatMembers(rest, id);
      var i :| 0 <= i < |rest| && id in rest[i].queue;
      assert LevelOk(s, rest[i], orders);
    }
  }

  /** The flattened side lists open orders of that side, each once, best price first. */
  lemma {:induction false} FlatOrdered(s: Side, ls: seq<Level>, orders: Orders)
    requires LevelsOk(s, ls, orders)
    ensures Distinct(Flat(ls)) && AllOpen(orders, s, Flat(ls)) && Prioritized(s, orders, Flat(ls))
  {
    if ls != [] {
      LevelsOkTail(s, ls, orders);
      FlatOrdered(s, ls[1..], orders);
      FrontOrdered(s, ls[0], Flat(ls[1..]), orders);
    }
  }

  lemma FrontOrdered(s: Side, l: Level, rest: seq<Id>, orders: Orders)
    requires LevelOk(s, l, orders)
    requires Distinct(rest) && AllOpen(orders, s, rest) && Prioritized(s, orders, rest)
    requires forall id | id in rest :: id in orders && Better(s, l.price, orders[id].price)
    ensures Distinct(l.queue + rest) && AllOpen(orders, s, l.queue + rest) && Prioritized(s, orders, l.queue + rest)
  {
    var q := l.queue + rest;
    forall i, j | 0 <= i < j < |q|
      ensures q[i] != q[j] && !Better(s, PriceOf(orders, q[j]), PriceOf(orders, q[i]))
    {
      if j < |l.queue| {
        assert q[i] in l.queue && q[j] in l.queue;
      } else if i < |l.queue| {
        assert q[i] in l.queue && q[j] == rest[j - |l.queue|] && q[j] in rest;
      } else {
        assert q[i] == rest[i - |l.queue|] && q[j] == rest[j - |l.queue|];
      }
    }
  }

  /** In a consistent book the flattened side is exactly the open orders, in price order. */
  lemma FlatIsTheOpenOrders(b: Book, s: Side)
    requires Inv(b)
    ensures var q := Flat(b.Levels(s));
            && Distinct(q) && Prioritized(s, b.orders, q) && AllOpen(b.orders, s, q)
            && forall id :: id in q <==> id in b.orders && b.orders[id].Live() && b.orders[id].side == s
  {
    assert LevelsOk(s, b.Levels(s), b.orders);
    FlatOrdered(s, b.Levels(s), b.orders);
    forall id
      ensures id in Flat(b.Levels(s)) <==> id in b.orders && b.orders[id].Live() && b.orders[id].side == s
    {
      FlatMembers(b.Levels(s), id);
      QueuedIsLive(b, s, id);
    }
  }

  function UpTo(s: Side, ls: seq<Level>, price: real): (k: nat)
    ensures k <= |ls|
  {
    var i := LowerBound(s, ls, price);
    if i < |ls| && ls[i].price == price then i + 1 else i
  }

  lemma FlatSplit(ls: seq<Level>, i: nat, l: Level, m: nat)
    requires i <= m <= |ls|
    ensures Flat(ls[..i] + [l] + ls[m..]) == Flat(ls[..i]) + l.queue + Flat(ls[m..])
  {
    FlatConcat(ls[..i] + [l], ls[m..]);
    FlatConcat(ls[..i], [l]);
    assert Flat([l]) == l.queue;
  }

  lemma FlatEnqueue(s: Side, ls: seq<Level>, price: real, quantity: int, id: Id)
    ensures var k := UpTo(s, ls, price);
            Flat(Enqueue(s, ls, price, quantity, id)) == Flat(ls[..k]) + [id] + Flat(ls[k..])
  {
    hide Flat;
    var i, k := LowerBound(s, ls, price), UpTo(s, ls, price);
    if k == i {
      FlatSplit(ls, i, Level(price, quantity, [id]), i);
    } else {
      var l := Level(price, ls[i].total + quantity, ls[i].queue + [id]);
      FlatSplit(ls, i, l, k);
      assert ls[i := l] == ls[..i] + [l] + ls[k..];
      FlatSplit(ls[..k], i, ls[i], k);
      assert ls[..k] == ls[..k][..i] + [ls[i]] + ls[..k][k..] && ls[..k][..i] == ls[..i] && ls[..k][k..] == [];
      assert Flat([]) == [] by { EmptyFlat(); }
    }
  }

  lemma EmptyFlat()
    ensures Flat([]) == []
  {
  }

  /** Price-time priority: a new order is consumed after every order whose price is as good or
      better, whenever it arrived, and before every order whose price is worse. */
  lemma PriceTimePriority(b: Book, o: Order) returns (k: nat)
    requires Inv(b)
    ensures var q, q' := Flat(b.Levels(o.side)), Flat(Add(b, o).Levels(o.side));
            && k <= |q| && q' == q[..k] + [o.orderId] + q[k..]
            && (forall i | 0 <= i < k :: !Better(o.side, o.price, PriceOf(b.orders, q[i])))
            && (forall i | k <= i < |q| :: Better(o.side, o.price, PriceOf(b.orders, q[i])))
  {
    hide Flat, Enqueue, UpTo;
    var s, ls := o.side, b.Levels(o.side);
    var upto := UpTo(s, ls, o.price);
    FlatEnqueue(s, ls, o.price, o.remaining, o.orderId);
    FlatConcat(ls[..upto], ls[upto..]);
    assert ls == ls[..upto] + ls[upto..];
    k := |Flat(ls[..upto])|;
    HeadAndTailPrices(b, s, o.price, upto);
  }

  lemma HeadAndTailPrices(b: Book, s: Side, price: real, upto: nat)
    requires Inv(b)
    requires upto == UpTo(s, b.Levels(s), price)
    ensures forall id | id in Flat(b.Levels(s)[..upto]) :: !Better(s, price, PriceOf(b.orders, id))
    ensures forall id | id in Flat(b.Levels(s)[upto..]) :: Better(s, price, PriceOf(b.orders, id))
  {
    hide Inv, Flat, Better, UpTo, PriceOf;
    var ls := b.Levels(s);
    UpToRange(s, ls, price);
    forall id | id in Flat(ls[..upto])
      ensures !Better(s, price, PriceOf(b.orders, id))
    {
      FlatMembers(ls[..upto], id);
      var k :| 0 <= k < |ls[..upto]| && id in ls[..upto][k].queue;
      LevelPrice(b, s, price, k, id);
    }
    forall id | id in Flat(ls[upto..])
      ensures Better(s, price, PriceOf(b.orders, id))
    {
      FlatMembers(ls[upto..], id);
      var k :| 0 <= k < |ls[upto..]| && id in ls[upto..][k].queue;
      LevelPrice(b, s, price, upto + k, id);
    }
  }

  lemma UpToRange(s: Side, ls: seq<Level>, price: real)
    ensures UpTo(s, ls, price) <= |ls|
  {
  }

  /** Whether the orders of the k-th level come before a new order at price. */
  lemma LevelPrice(b: Book, s: Side, price: real, k: nat, id: Id)
    requires Inv(b) && k < |b.Levels(s)| && id in b.Levels(s)[k].queue
    ensures Better(s, price, PriceOf(b.orders, id)) <==> k >= UpTo(s, b.Levels(s), price)
  {
    var ls := b.Levels(s);
    hide Flat, QueueSum, Distinct;
    assert SideOk(s, ls, b.orders) && LevelOk(s, ls[k], b.orders);
    var i := LowerBound(s, ls, price);
    if i < k {
      assert Better(s, ls[i].price, ls[k].price);
    }
  }

  // ---- what the walk fills ----

  lemma {:induction false} SumNonNegative(orders: Orders, s: Side, q: seq<Id>)
    requires AllOpen(orders, s, q)
    ensures QueueSum(orders, q) >= 0
  {
    if q != [] {
      SumNonNegative(orders, s, q[1..]);
    }
  }

  /** Fills go to the queue's orders from the front, at their prices; all but the last exhaust
      their order; together they fill min(quantity, liquidity). */
  lemma {:induction false} WalkIsGreedyPrefix(orders: Orders, s: Side, q: seq<Id>, quantity: int)
    requires AllOpen(orders, s, q)
    ensures var fills := Walk(orders, q, quantity);
            && |fills| <= |q|
            && (forall i | 0 <= i < |fills| ::
                  && fills[i].orderId == q[i] && fills[i].price == orders[q[i]].price
                  && 0 < fills[i].quantity <= orders[q[i]].remaining
                  && (i < |fills| - 1 ==> fills[i].quantity == orders[q[i]].remaining))
            && FilledTotal(fills) == Min(Max(quantity, 0), QueueSum(orders, q))
  {
    SumNonNegative(orders, s, q);
    if q != [] && quantity > 0 {
      assert q[0] in q;
      var f := Min(quantity, orders[q[0]].remaining);
      SumNonNegative(orders, s, q[1..]);
      WalkIsGreedyPrefix(orders, s, q[1..], quantity - f);
    }
  }

  lemma {:induction false} WalkElsewhere(orders: Orders, q: seq<Id>, quantity: int, id: Id)
    requires id !in q
    ensures FilledAmount(Walk(orders, q, quantity), id) == 0
  {
    if q != [] && quantity > 0 && q[0] in orders {
      WalkElsewhere(orders, q[1..], quantity - Min(quantity, orders[q[0]].remaining), id);
    }
  }

  /** The k-th order in the queue receives what the orders ahead of it leave, up to its size. */
  function Allotment(orders: Orders, q: seq<Id>, quantity: int, k: nat): int
    requires k < |q|
  {
    Min(Rem(orders, q[k]), Max(0, quantity - QueueSum(orders, q[..k])))
  }

  lemma {:induction false} WalkAmount(orders: Orders, s: Side, q: seq<Id>, quantity: int, k: nat)
    requires AllOpen(orders, s, q) && Distinct(q) && k < |q|
    ensures FilledAmount(Walk(orders, q, quantity), q[k]) == Allotment(orders, q, quantity, k)
    decreases |q|
  {
    assert q[k] in q && q[0] in q;
    assert AllOpen(orders, s, q[..k]);
    SumNonNegative(orders, s, q[..k]);
    if quantity > 0 {
      var f := Min(quantity, orders[q[0]].remaining);
      if k == 0 {
        WalkElsewhere(orders, q[1..], quantity - f, q[0]);
      } else {
        WalkAmount(orders, s, q[1..], quantity - f, k - 1);
        assert q[..k][1..] == q[1..][..k - 1];
        assert AllOpen(orders, s, q[1..][..k - 1]);
        SumNonNegative(orders, s, q[1..][..k - 1]);
      }
    }
  }

  lemma {:induction false} FilledConcat(a: seq<Fill>, b: seq<Fill>, id: Id)
    ensures FilledAmount(a + b, id) == FilledAmount(a, id) + FilledAmount(b, id)
  {
    if a == [] {
      assert a + b == b;
    } else {
      assert (a + b)[1..] == a[1..] + b;
      FilledConcat(a[1..], b, id);
    }
  }

  /** What any order receives lies between zero and its remaining quantity. */
  lemma WalkAmountRange(orders: Orders, s: Side, q: seq<Id>, quantity: int, id: Id)
    requires AllOpen(orders, s, q) && Distinct(q)
    ensures 0 <= FilledAmount(Walk(orders, q, quantity), id)
    ensures FilledAmount(Walk(orders, q, quantity), id) <= if id in q then Rem(orders, id) else 0
  {
    if id in q {
      var k :| 0 <= k < |q| && q[k] == id;
      WalkAmount(orders, s, q, quantity, k);
    } else {
      WalkElsewhere(orders, q, quantity, id);
    }
  }

  ghost predicate Sound(orders: Orders) {
    forall id | id in orders :: orders[id].isCancelled || orders[id].remaining > 0
  }

  lemma FillsShrink(orders: Orders, s: Side, q: seq<Id>, quantity: int)
    requires AllOpen(orders, s, q) && Distinct(q) && Sound(orders)
    ensures Shrinks(orders, AfterFills(orders, Walk(orders, q, quantity)))
  {
    hide Walk, FilledAmount;
    forall id | id in orders
      ensures var o := Settle(orders[id], FilledAmount(Walk(orders, q, quantity), id));
              (o.Live() ==> orders[id].Live()) && (o.isCancelled || o.remaining > 0)
    {
      WalkAmountRange(orders, s, q, quantity, id);
    }
  }

  lemma MatchShrinks(b: Book, aggressor: Side, quantity: int)
    requires Inv(b)
    ensures Shrinks(b.orders, Match(b, aggressor, quantity).orders)
  {
    var s := aggressor.Opposite();
    FlatIsTheOpenOrders(b, s);
    FillsShrink(b.orders, s, Flat(b.Levels(s)), quantity);
  }

  /** Matching keeps the index invariant. */
  lemma MatchKeepsInv(b: Book, aggressor: Side, quantity: int)
    requires Inv(b)
    ensures Inv(Match(b, aggressor, quantity))
  {
    MatchShrinks(b, aggressor, quantity);
    RebuildKeepsInv(b, Match(b, aggressor, quantity).orders);
  }

  /** Conservation: the fills total min(quantity, liquidity), and every order of the book has
      lost exactly what the fills say it gave. */
  lemma MatchConserves(b: Book, aggressor: Side, quantity: int, id: Id)
    requires Inv(b)
    ensures FilledTotal(MatchFills(b, aggressor, quantity)) ==
            Min(Max(quantity, 0), QueueSum(b.orders, Flat(b.Levels(aggressor.Opposite()))))
    ensures id in b.orders ==>
              Match(b, aggressor, quantity).orders[id].remaining
              == b.orders[id].remaining - FilledAmount(MatchFills(b, aggressor, quantity), id)
    ensures id in b.orders && b.orders[id].side == aggressor ==>
              Match(b, aggressor, quantity).orders[id] == b.orders[id]
  {
    var s := aggressor.Opposite();
    FlatIsTheOpenOrders(b, s);
    WalkIsGreedyPrefix(b.orders, s, Flat(b.Levels(s)), quantity);
    if id !in Flat(b.Levels(s)) {
      WalkElsewhere(b.orders, Flat(b.Levels(s)), quantity, id);
    }
  }
}
