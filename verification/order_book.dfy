/** Lemmas that follow the order book's loops step by step. */
module OrderBookSteps {
  import opened Types
  import opened BookSpec
  import opened BookIndex
  import opened Matching

  /** The levels once the front level has become l. */
  function Front(l: Level, rest: seq<Level>): seq<Level> {
    if l.queue == [] then rest else [l] + rest
  }

  /** One order after giving f units, and its level. */
  function FilledOrder(o: Order, f: int): Order {
    o.(remaining := o.remaining - f, isCancelled := o.isCancelled || o.remaining == f)
  }

  function FilledLevel(l: Level, o: Order, f: int): Level
    requires l.queue != []
  {
    Level(l.price, l.total - f, if o.remaining == f then l.queue[1..] else l.queue)
  }

  lemma {:induction false} WalkFrame(o1: Orders, o2: Orders, q: seq<Id>, quantity: int)
    requires forall id | id in q :: id in o1 && id in o2 && o1[id] == o2[id]
    ensures Walk(o1, q, quantity) == Walk(o2, q, quantity)
  {
    if q != [] && quantity > 0 {
      assert q[0] in q;
      WalkFrame(o1, o2, q[1..], quantity - Min(quantity, o1[q[0]].remaining));
    }
  }

  lemma FrontFillShrinks(s: Side, l: Level, rest: seq<Level>, orders: Orders, f: int)
    requires SideOk(s, [l] + rest, orders) && Sound(orders) && l.queue != []
    requires Rem(orders, l.queue[0]) >= f > 0
    ensures l.queue[0] in orders && orders[l.queue[0]].Live()
    ensures Shrinks(orders, orders[l.queue[0] := FilledOrder(orders[l.queue[0]], f)])
  {
    assert LevelOk(s, ([l] + rest)[0], orders);
    assert l.queue[0] in l.queue;
  }

  lemma RestUntouched(s: Side, l: Level, rest: seq<Level>, orders: Orders)
    requires SideOk(s, [l] + rest, orders) && l.queue != []
    ensures forall i | 0 <= i < |rest| :: LevelOk(s, rest[i], orders) && l.queue[0] !in rest[i].queue
  {
    assert LevelOk(s, ([l] + rest)[0], orders) && l.queue[0] in l.queue;
    forall i | 0 <= i < |rest|
      ensures LevelOk(s, rest[i], orders) && l.queue[0] !in rest[i].queue
    {
      assert ([l] + rest)[i + 1] == rest[i];
      assert LevelOk(s, ([l] + rest)[i + 1], orders);
      assert Better(s, ([l] + rest)[0].price, ([l] + rest)[i + 1].price);
    }
  }

  lemma FrontLevelRefreshed(s: Side, l: Level, orders: Orders, f: int)
    requires LevelOk(s, l, orders) && Rem(orders, l.queue[0]) >= f > 0
    ensures l.queue[0] in orders
    ensures var id := l.queue[0];
            var after := orders[id := FilledOrder(orders[id], f)];
            RefreshLevel(after, l) == FilledLevel(l, orders[id], f)
  {
    hide Distinct;
    var id, tail := l.queue[0], l.queue[1..];
    assert id in l.queue;
    var after := orders[id := FilledOrder(orders[id], f)];
    HeadOnce(l.queue);
    forall x | x in tail
      ensures x in l.queue && x != id
    {
    }
    SumFrame(orders, after, tail);
    if orders[id].remaining == f {
      LiveQueueAll(after, tail);
    } else {
      LiveQueueAll(after, l.queue);
    }
  }

  lemma HeadOnce(q: seq<Id>)
    requires Distinct(q) && q != []
    ensures q[0] !in q[1..]
  {
  }

  /** After one fill the rebuilt levels are the popped and reduced ones. */
  lemma FrontFillRefreshes(s: Side, l: Level, rest: seq<Level>, orders: Orders, f: int)
    requires SideOk(s, [l] + rest, orders) && l.queue != [] && Rem(orders, l.queue[0]) >= f > 0
    ensures l.queue[0] in orders
    ensures var id := l.queue[0];
            Refresh(orders[id := FilledOrder(orders[id], f)], [l] + rest) == Front(FilledLevel(l, orders[id], f), rest)
  {
    hide FilledOrder, LevelOk;
    assert LevelOk(s, ([l] + rest)[0], orders);
    FrontLevelRefreshed(s, l, orders, f);
    RestUntouched(s, l, rest, orders);
    var id := l.queue[0];
    var after := orders[id := FilledOrder(orders[id], f)];
    RestRefreshed(s, rest, orders, after, id);
    assert ([l] + rest)[1..] == rest;
  }

  lemma RestRefreshed(s: Side, rest: seq<Level>, orders: Orders, after: Orders, id: Id)
    requires forall i | 0 <= i < |rest| :: LevelOk(s, rest[i], orders) && id !in rest[i].queue
    requires id in orders && id in after && after == orders[id := after[id]]
    ensures Refresh(after, rest) == rest
  {
    forall i, x | 0 <= i < |rest| && x in rest[i].queue
      ensures x in orders && x in after && after[x] == orders[x]
    {
      assert LevelOk(s, rest[i], orders);
    }
    RefreshSame(s, orders, after, rest);
  }

  /** One fill is one step of the walk. */
  lemma FrontFillWalks(s: Side, l: Level, rest: seq<Level>, orders: Orders, remaining: int, f: int)
    requires SideOk(s, [l] + rest, orders) && l.queue != [] && remaining > 0
    requires f == Min(remaining, Rem(orders, l.queue[0])) > 0
    ensures l.queue[0] in orders
    ensures var id := l.queue[0];
            var after := orders[id := FilledOrder(orders[id], f)];
            Walk(orders, Flat([l] + rest), remaining) ==
            [Fill(id, orders[id].price, f)] + Walk(after, Flat(Front(FilledLevel(l, orders[id], f), rest)), remaining - f)
  {
    hide FilledOrder, Sorted;
    assert LevelsOk(s, [l] + rest, orders);
    FlatOrdered(s, [l] + rest, orders);
    assert LevelOk(s, ([l] + rest)[0], orders) && l.queue[0] in l.queue;
    var id := l.queue[0];
    var after := orders[id := FilledOrder(orders[id], f)];
    var q := Flat([l] + rest);
    assert ([l] + rest)[1..] == rest && q == l.queue + Flat(rest);
    assert q[0] == id && q[1..] == l.queue[1..] + Flat(rest);
    assert id !in q[1..];
    if f == orders[id].remaining {
      FlatOfFront(FilledLevel(l, orders[id], f), rest);
      WalkFrame(orders, after, q[1..], remaining - f);
    }
  }

  lemma FlatOfFront(l: Level, rest: seq<Level>)
    ensures Flat(Front(l, rest)) == l.queue + Flat(rest)
  {
    if l.queue != [] {
      assert ([l] + rest)[1..] == rest;
    }
  }

  lemma {:induction false} FilledNonNegative(fills: seq<Fill>, id: Id)
    requires forall i | 0 <= i < |fills| :: fills[i].quantity > 0
    ensures FilledAmount(fills, id) >= 0
  {
    if fills != [] {
      FilledNonNegative(fills[1..], id);
    }
  }

  /** Recording one more fill settles one more order. */
  lemma RecordFill(orders: Orders, fills: seq<Fill>, fill: Fill)
    requires fill.orderId in orders && fill.quantity > 0
    requires forall i | 0 <= i < |fills| :: fills[i].quantity > 0
    requires var now := AfterFills(orders, fills);
             now[fill.orderId].remaining >= fill.quantity
    ensures var now := AfterFills(orders, fills);
            AfterFills(orders, fills + [fill]) == now[fill.orderId := FilledOrder(now[fill.orderId], fill.quantity)]
  {
    var now := AfterFills(orders, fills);
    forall id | id in orders
      ensures AfterFills(orders, fills + [fill])[id] ==
              if id == fill.orderId then FilledOrder(now[id], fill.quantity) else now[id]
    {
      FilledConcat(fills, [fill], id);
      FilledNonNegative(fills, id);
      assert FilledAmount([fill], id) == if id == fill.orderId then fill.quantity else 0;
    }
  }

  // ---- removing one order from its level ----

  lemma RemovedFromQueue(orders: Orders, q: seq<Id>, j: nat)
    requires Distinct(q) && j < |q|
    requires forall id | id in q :: id in orders && (orders[id].Live() <==> id != q[j])
    ensures LiveQueue(orders, q) == q[..j] + q[j + 1..]
  {
    hide LiveQueue;
    var a, b := q[..j], q[j + 1..];
    assert q == a + [q[j]] + b && q[j] in q;
    LiveQueueConcat(orders, a + [q[j]], b);
    LiveQueueConcat(orders, a, [q[j]]);
    forall id | id in a || id in b
      ensures id in q && id != q[j]
    {
    }
    LiveQueueAll(orders, a);
    LiveQueueAll(orders, b);
    DeadAlone(orders, q[j]);
  }

  lemma DeadAlone(orders: Orders, id: Id)
    requires id in orders && !orders[id].Live()
    ensures LiveQueue(orders, [id]) == []
  {
  }

  lemma RemovedLevel(s: Side, l: Level, before: Orders, after: Orders, j: nat)
    requires LevelOk(s, l, before) && j < |l.queue|
    requires l.queue[j] in before
    requires after == before[l.queue[j] := before[l.queue[j]].(isCancelled := true)]
    ensures RefreshLevel(after, l) ==
            Level(l.price, l.total - before[l.queue[j]].remaining, l.queue[..j] + l.queue[j + 1..])
  {
    var q, id := l.queue, l.queue[j];
    assert q == q[..j] + [id] + q[j + 1..];
    RemovedFromQueue(after, q, j);
    SumConcat(before, q[..j] + [id], q[j + 1..]);
    SumConcat(before, q[..j], [id]);
    SumConcat(before, q[..j], q[j + 1..]);
    assert QueueSum(before, [id]) == before[id].remaining;
    SumFrame(before, after, q[..j] + q[j + 1..]);
  }

  /** Taking the order out of its level, and the level out when it is empty, is the rebuild. */
  lemma RemovalRefreshes(s: Side, ls: seq<Level>, before: Orders, after: Orders, i: nat, j: nat)
    requires SideOk(s, ls, before) && i < |ls| && j < |ls[i].queue|
    requires ls[i].queue[j] in before
    requires after == before[ls[i].queue[j] := before[ls[i].queue[j]].(isCancelled := true)]
    ensures Refresh(after, ls) == ls[..i] + RefreshOne(after, ls[i]) + ls[i + 1..]
  {
    hide Refresh, RefreshOne, QueueSum, Distinct;
    var id := ls[i].queue[j];
    assert id in ls[i].queue && LevelOk(s, ls[i], before);
    forall k | 0 <= k < |ls| && k != i
      ensures LevelOk(s, ls[k], before) && id !in ls[k].queue
    {
      assert LevelOk(s, ls[k], before);
      assert if k < i then Better(s, ls[k].price, ls[i].price) else Better(s, ls[i].price, ls[k].price);
    }
    hide LevelOk;
    RestRefreshed(s, ls[..i], before, after, id);
    RestRefreshed(s, ls[i + 1..], before, after, id);
    assert ls == ls[..i] + [ls[i]] + ls[i + 1..];
    RefreshConcat(after, ls[..i] + [ls[i]], ls[i + 1..]);
    RefreshConcat(after, ls[..i], [ls[i]]);
    RefreshSingle(after, ls[i]);
  }

  lemma RefreshSingle(orders: Orders, l: Level)
    ensures Refresh(orders, [l]) == RefreshOne(orders, l)
  {
  }

  /** The side an order does not rest on is untouched by closing or filling it. */
  lemma OtherSideUntouched(b: Book, s: Side, after: Orders)
    requires Inv(b)
    requires forall id | id in b.orders && b.orders[id].side == s :: id in after && after[id] == b.orders[id]
    ensures Refresh(after, b.Levels(s)) == b.Levels(s)
  {
    var ls := b.Levels(s);
    assert SideOk(s, ls, b.orders);
    forall i, id | 0 <= i < |ls| && id in ls[i].queue
      ensures id in b.orders && id in after && after[id] == b.orders[id]
    {
      assert LevelOk(s, ls[i], b.orders);
    }
    RefreshSame(s, b.orders, after, ls);
  }

  /** Where a live order rests: the only level at its price, and its place in the queue. */
  lemma RestingPlace(s: Side, ls: seq<Level>, orders: Orders, id: Id, price: real) returns (i: nat, j: nat)
    requires SideOk(s, ls, orders) && Resting(orders, s, price, id)
    ensures i < |ls| && ls[i].price == price && LevelOk(s, ls[i], orders)
    ensures forall k | 0 <= k < i :: ls[k].price != price
    ensures j < |ls[i].queue| && ls[i].queue[j] == id
    ensures forall k | 0 <= k < j :: ls[i].queue[k] != id
  {
    assert Queued(ls, id);
    i :| 0 <= i < |ls| && id in ls[i].queue;
    assert LevelOk(s, ls[i], orders);
    j :| 0 <= j < |ls[i].queue| && ls[i].queue[j] == id;
  }

  /** In a consistent book the searches find the order, and taking it out is the rebuild. */
  lemma WithdrawIsCancel(b: Book, id: Id)
    requires Inv(b)
    ensures Withdraw(b, id) == Cancel(b, id)
  {
    if Cancellable(b, id) {
      var o := b.orders[id];
      var orders := b.orders[id := o.(isCancelled := true)];
      RemovedIsRefresh(b, o.side, id, orders);
      OtherSideUntouched(b, o.side.Opposite(), orders);
    }
  }

  lemma RemovedIsRefresh(b: Book, s: Side, id: Id, orders: Orders)
    requires Inv(b) && Cancellable(b, id) && s == b.orders[id].side
    requires orders == b.orders[id := b.orders[id].(isCancelled := true)]
    ensures Removed(orders, b.Levels(s), b.orders[id].price, id) == Refresh(orders, b.Levels(s))
  {
    hide Inv, Refresh, SideOk, QueueSum, LevelOk, LevelAt, PlaceIn, Removed, Without, RefreshOne;
    var ls, price := b.Levels(s), b.orders[id].price;
    OpenRests(b, s, id);
    var at, pos := RestingPlace(s, ls, b.orders, id, price);
    RemovalRefreshes(s, ls, b.orders, orders, at, pos);
    RemovedLevel(s, ls[at], b.orders, orders, pos);
    RemovedThere(orders, ls, price, id, at, pos);
  }

  lemma OpenRests(b: Book, s: Side, id: Id)
    requires Inv(b) && Cancellable(b, id) && s == b.orders[id].side
    ensures SideOk(s, b.Levels(s), b.orders) && Resting(b.orders, s, b.orders[id].price, id)
  {
  }

  lemma RemovedThere(orders: Orders, ls: seq<Level>, price: real, id: Id, i: nat, j: nat)
    requires id in orders && i < |ls| && ls[i].price == price && j < |ls[i].queue| && ls[i].queue[j] == id
    requires forall k | 0 <= k < i :: ls[k].price != price
    requires forall k | 0 <= k < j :: ls[i].queue[k] != id
    requires RefreshLevel(orders, ls[i])
             == Level(price, ls[i].total - orders[id].remaining, ls[i].queue[..j] + ls[i].queue[j + 1..])
    ensures Removed(orders, ls, price, id) == ls[..i] + RefreshOne(orders, ls[i]) + ls[i + 1..]
  {
    hide LevelAt, PlaceIn, QueueSum, RefreshLevel;
  }
}

/** The order book class, updated in place, against the book value. */
module OrderBooks {
  import opened Types
  import opened BookSpec
  import opened BookIndex
  import opened Matching
  import opened BookViews
  import opened OrderBookSteps

  datatype Snapshot = Snapshot(bids: seq<Level>, asks: seq<Level>)

  class OrderBook {
    var bids: seq<Level>
    var asks: seq<Level>
    var orders: Orders

    ghost function State(): Book
      reads this
    {
      Book(bids, asks, orders)
    }

    ghost predicate Valid()
      reads this
    {
      Inv(State())
    }

    constructor ()
      ensures State() == EMPTY_BOOK && Valid()
    {
      bids, asks, orders := [], [], map[];
    }

    method AddOrder(order: Order) returns (id: Id)
      modifies this
      ensures id == order.orderId && State() == Add(old(State()), order)
      ensures old(Valid()) ==> (Valid() <==> order.Live() && !IdLive(old(State()), order.orderId))
    {
      ghost var before := State();
      orders := orders[order.orderId := order];
      if order.side == Buy {
        bids := Enqueue(Buy, bids, order.price, order.remaining, order.orderId);
      } else {
        asks := Enqueue(Sell, asks, order.price, order.remaining, order.orderId);
      }
      id := order.orderId;
      assert old(Valid()) ==> (Valid() <==> order.Live() && !IdLive(before, order.orderId)) by {
        if old(Valid()) { AddKeepsInv(before, order); }
      }
    }

    /** Takes a just-cancelled order out of its level by two linear searches, in any book. */
    method RemoveOrderFromLevel(id: Id, side: Side, price: real)
      requires id in orders
      modifies this`bids, this`asks
      ensures State() == old(State()).WithLevels(side, Removed(orders, old(State()).Levels(side), price, id))
    {
      hide LevelAt, PlaceIn, Removed, Without;
      var ls := if side == Buy then bids else asks;
      var i := 0;
      while i < |ls| && ls[i].price != price
        invariant 0 <= i <= LevelAt(ls, price)
      {
        i := i + 1;
      }
      if i < |ls| {
        var queue := ls[i].queue;
        var total := ls[i].total;
        var j := 0;
        while j < |queue| && queue[j] != id
          invariant 0 <= j <= PlaceIn(queue, id)
        {
          j := j + 1;
        }
        RemovedWhere(orders, ls, price, id, i, j);
        if j < |queue| {
          total := total - orders[id].remaining;
          queue := queue[..j] + queue[j + 1..];
        }
        if queue == [] {
          ls := ls[..i] + ls[i + 1..];
        } else {
          ls := ls[..i] + [Level(ls[i].price, total, queue)] + ls[i + 1..];
        }
        if side == Buy {
          bids := ls;
        } else {
          asks := ls;
        }
      } else {
        NothingRemoved(orders, ls, price, id);
      }
    }

    /** Cancels an order unless it is unknown or already closed; a consistent book stays so. */
    method CancelOrder(id: Id) returns (ok: bool)
      modifies this
      ensures ok <==> id in old(orders) && !old(orders)[id].isCancelled
      ensures orders == if ok then old(orders)[id := old(orders)[id].(isCancelled := true)] else old(orders)
      ensures State() == Withdraw(old(State()), id)
      ensures old(Valid()) ==> Valid() && State() == Cancel(old(State()), id)
    {
      hide Inv, Removed, Rebuild;
      if id !in orders || orders[id].isCancelled {
        return false;
      }
      ghost var b := State();
      if Inv(b) {
        CancelKeepsInv(b, id);
        WithdrawIsCancel(b, id);
      }
      var order := orders[id];
      orders := orders[id := order.(isCancelled := true)];
      RemoveOrderFromLevel(id, order.side, order.price);
      return true;
    }

    /** The body of the inner matching loop: fills the first order of a level, and closes and
        pops it when exhausted. */
    method FillFront(ghost s: Side, ghost b: Book, ghost ls0: seq<Level>, level: Level, ghost rest: seq<Level>,
                     remaining: int, fills: seq<Fill>)
      returns (level': Level, remaining': int, fills': seq<Fill>)
      requires level.queue != [] && remaining > 0
      requires Consistent(s, b, ls0, [level] + rest, orders, fills)
      modifies this`orders
      ensures remaining' < remaining
      ensures Consistent(s, b, ls0, Front(level', rest), orders, fills')
      ensures fills' + Walk(orders, Flat(Front(level', rest)), remaining')
              == fills + Walk(old(orders), Flat([level] + rest), remaining)
    {
      hide Consistent, Walk, Flat;
      var id := level.queue[0];
      FrontLive(s, b, ls0, level, rest, orders, fills);
      level', remaining', fills' := level, remaining, fills;
      if orders[id].isCancelled {
        // a cancelled order would be skipped; the index invariant says none is queued
        assert false;
      } else {
        var order := orders[id];
        var f := Min(remaining, order.remaining);
        StepKeeps(s, b, ls0, level, rest, orders, fills, remaining, f);
        fills' := fills + [Fill(id, order.price, f)];
        order := order.(remaining := order.remaining - f);
        level' := level.(total := level.total - f);
        remaining' := remaining - f;
        if order.remaining == 0 {
          order := order.(isCancelled := true);
          level' := level'.(queue := level'.queue[1..]);
        }
        orders := orders[id := order];
        assert fills' + Walk(orders, Flat(Front(level', rest)), remaining')
            == fills + ([Fill(id, order.price, f)] + Walk(orders, Flat(Front(level', rest)), remaining'));
      }
    }

    /** The two nested matching loops, over the levels of one side. */
    method WalkLevels(ghost s: Side, ghost b: Book, levels: seq<Level>, quantity: int)
      returns (ls: seq<Level>, fills: seq<Fill>)
      requires Consistent(s, b, levels, levels, orders, [])
      modifies this`orders
      ensures fills == Walk(old(orders), Flat(levels), quantity)
      ensures Consistent(s, b, levels, ls, orders, fills)
    {
      hide *;
      ghost var all := Walk(orders, Flat(levels), quantity);
      ls, fills := levels, [];
      var remaining := quantity;
      var i := 0;
      while i < |ls| && remaining > 0
        invariant 0 <= i <= |ls| && (i == 0 || remaining <= 0)
        invariant Consistent(s, b, levels, ls, orders, fills)
        invariant fills + Walk(orders, Flat(ls), remaining) == all
        decreases |ls| - i
      {
        var level := ls[i];
        ghost var rest := ls[1..];
        FrontNonEmpty(s, b, levels, ls, orders, fills);
        while level.queue != [] && remaining > 0
          invariant Consistent(s, b, levels, Front(level, rest), orders, fills)
          invariant fills + Walk(orders, Flat(Front(level, rest)), remaining) == all
          decreases remaining
        {
          FrontCases(level, rest);
          level, remaining, fills := FillFront(s, b, levels, level, rest, remaining, fills);
        }
        FrontCases(level, rest);
        if level.queue == [] {
          ls := ls[..i] + ls[i + 1..];
          assert ls == rest;
        } else {
          ls := ls[i := level];
          assert ls == [level] + rest;
          i := i + 1;
        }
      }
      NothingLeft(orders, ls, remaining);
    }

    /** A market order: fills and new book are those of the pure greedy walk. */
    method MatchMarketOrder(aggressor: Side, quantity: int) returns (fills: seq<Fill>)
      requires Valid()
      modifies this
      ensures fills == MatchFills(old(State()), aggressor, quantity)
      ensures State() == Match(old(State()), aggressor, quantity) && Valid()
    {
      hide Consistent, Walk, Flat, Match, Inv;
      ghost var b := State();
      ghost var s := aggressor.Opposite();
      StartConsistent(b, s);
      if aggressor == Buy {
        asks, fills := WalkLevels(s, b, asks, quantity);
        FinishMatch(b, aggressor, quantity, asks, orders, fills);
      } else {
        bids, fills := WalkLevels(s, b, bids, quantity);
        FinishMatch(b, aggressor, quantity, bids, orders, fills);
      }
    }

    /** The best open bid price, with all that is open there; none if no buy order is open. */
    method GetBestBid() returns (best: Option<Level>)
      requires Valid()
      ensures IsBest(Buy, orders, best)
    {
      BestIsBest(State(), Buy);
      best := if bids == [] then None else Some(bids[0]);
    }

    /** The best open ask price, with all that is open there; none if no sell order is open. */
    method GetBestAsk() returns (best: Option<Level>)
      requires Valid()
      ensures IsBest(Sell, orders, best)
    {
      BestIsBest(State(), Sell);
      best := if asks == [] then None else Some(asks[0]);
    }

    /** At most depth levels of each side, best first. */
    method GetSnapshot(depth: int) returns (snap: Snapshot)
      ensures snap.bids == bids[..Min(Max(depth, 0), |bids|)]
      ensures snap.asks == asks[..Min(Max(depth, 0), |asks|)]
    {
      var out := [];
      var count := 0;
      while count < |bids| && count < depth
        invariant 0 <= count <= |bids| && count <= Max(depth, 0)
        invariant out == bids[..count]
      {
        out := out + [bids[count]];
        count := count + 1;
      }
      var outAsks := [];
      count := 0;
      while count < |asks| && count < depth
        invariant 0 <= count <= |asks| && count <= Max(depth, 0)
        invariant outAsks == asks[..count]
      {
        outAsks := outAsks + [asks[count]];
        count := count + 1;
      }
      snap := Snapshot(out, outAsks);
    }

    /** Lists the live orders, each once, in whatever order the map is iterated. */
    method GetAllOrders() returns (all: seq<Order>)
      requires Valid()
      ensures Enumerates(all, orders)
    {
      all := [];
      var todo := orders.Keys;
      while todo != {}
        invariant todo <= orders.Keys
        invariant forall i, j | 0 <= i < j < |all| :: all[i].orderId != all[j].orderId
        invariant forall o | o in all :: o.orderId in orders && o.orderId !in todo && orders[o.orderId] == o && o.Live()
        invariant forall id | id in orders && id !in todo && orders[id].Live() :: orders[id] in all
        decreases todo
      {
        var id :| id in todo;
        todo := todo - {id};
        if !orders[id].isCancelled && orders[id].remaining > 0 {
          all := all + [orders[id]];
        }
      }
    }

    function HasOrder(id: Id): bool
      reads this
    {
      id in orders
    }

    /** A known id changes nothing; an open order keeps a consistent book so, a closed one does not. */
    method InsertReplicatedOrder(order: Order)
      modifies this
      ensures State() == InsertReplicated(old(State()), order)
      ensures old(Valid()) ==> (Valid() <==> order.orderId in old(orders) || order.Live())
    {
      hide Inv;
      if order.orderId in orders {
        return;
      }
      var id := AddOrder(order);
    }

    method ApplyReplicatedCancel(id: Id)
      modifies this
      ensures State() == Withdraw(old(State()), id)
      ensures old(Valid()) ==> Valid() && State() == Cancel(old(State()), id)
    {
      hide Inv, Withdraw, Cancel;
      CancelUnknown(State(), id);
      if id !in orders {
        return;
      }
      if orders[id].isCancelled {
        return;
      }
      var ok := CancelOrder(id);
    }
  }

  lemma RemovedWhere(orders: Orders, ls: seq<Level>, price: real, id: Id, i: nat, j: nat)
    requires id in orders && i == LevelAt(ls, price) < |ls| && j == PlaceIn(ls[i].queue, id)
    ensures var q := ls[i].queue;
            var l := if j < |q| then Level(ls[i].price, ls[i].total - orders[id].remaining, q[..j] + q[j + 1..]) else ls[i];
            Removed(orders, ls, price, id)
            == if l.queue == [] then ls[..i] + ls[i + 1..] else ls[..i] + [l] + ls[i + 1..]
  {
    hide LevelAt, PlaceIn;
  }

  lemma NothingRemoved(orders: Orders, ls: seq<Level>, price: real, id: Id)
    ensures LevelAt(ls, price) == |ls| ==> Removed(orders, ls, price, id) == ls
  {
  }

  lemma CancelUnknown(b: Book, id: Id)
    ensures id !in b.orders || b.orders[id].isCancelled ==> Withdraw(b, id) == Cancel(b, id) == b
  {
  }

  /** What the matching loops keep: the levels are the rebuild of the original ones for the
      present orders, which have lost exactly the recorded fills. */
  ghost predicate Consistent(s: Side, b: Book, ls0: seq<Level>, ls: seq<Level>, orders: Orders, fills: seq<Fill>) {
    && SideOk(s, ls, orders) && Sound(orders)
    && ls == Refresh(orders, ls0)
    && orders == AfterFills(b.orders, fills)
    && (forall k | 0 <= k < |fills| :: fills[k].quantity > 0)
  }

  lemma StepKeeps(s: Side, b: Book, ls0: seq<Level>, level: Level, rest: seq<Level>, orders: Orders,
                  fills: seq<Fill>, remaining: int, f: int)
    requires level.queue != [] && remaining > 0
    requires Consistent(s, b, ls0, [level] + rest, orders, fills)
    requires f == Min(remaining, Rem(orders, level.queue[0]))
    ensures f > 0 && level.queue[0] in orders
    ensures var o := orders[level.queue[0]];
            var after := orders[level.queue[0] := FilledOrder(o, f)];
            var next := Front(FilledLevel(level, o, f), rest);
            var fill := Fill(level.queue[0], o.price, f);
            && Consistent(s, b, ls0, next, after, fills + [fill])
            && Walk(orders, Flat([level] + rest), remaining) == [fill] + Walk(after, Flat(next), remaining - f)
  {
    hide Walk, Flat, SideOk, FilledAmount, Settle, FilledLevel, FilledOrder, Front;
    var id := level.queue[0];
    FrontLive(s, b, ls0, level, rest, orders, fills);
    FrontFillShrinks(s, level, rest, orders, f);
    FrontFillRefreshes(s, level, rest, orders, f);
    FrontFillWalks(s, level, rest, orders, remaining, f);
    RefreshKeepsSide(s, [level] + rest, orders, orders[id := FilledOrder(orders[id], f)]);
    RefreshTwice(orders, orders[id := FilledOrder(orders[id], f)], ls0);
    RecordFill(b.orders, fills, Fill(id, orders[id].price, f));
  }

  lemma FrontLive(s: Side, b: Book, ls0: seq<Level>, level: Level, rest: seq<Level>, orders: Orders, fills: seq<Fill>)
    requires level.queue != [] && Consistent(s, b, ls0, [level] + rest, orders, fills)
    ensures level.queue[0] in orders && orders[level.queue[0]].Live()
  {
    assert LevelOk(s, ([level] + rest)[0], orders) && level.queue[0] in level.queue;
  }

  lemma FrontNonEmpty(s: Side, b: Book, ls0: seq<Level>, ls: seq<Level>, orders: Orders, fills: seq<Fill>)
    requires ls != [] && Consistent(s, b, ls0, ls, orders, fills)
    ensures Front(ls[0], ls[1..]) == ls
  {
    assert LevelOk(s, ls[0], orders);
  }

  lemma FrontCases(l: Level, rest: seq<Level>)
    ensures Front(l, rest) == if l.queue == [] then rest else [l] + rest
  {
  }

  lemma StartConsistent(b: Book, s: Side)
    requires Inv(b)
    ensures Consistent(s, b, b.Levels(s), b.Levels(s), b.orders, [])
  {
    assert AfterFills(b.orders, []) == b.orders;
    OtherSideUntouched(b, s, b.orders);
  }

  lemma NothingLeft(orders: Orders, ls: seq<Level>, remaining: int)
    ensures remaining <= 0 || ls == [] ==> Walk(orders, Flat(ls), remaining) == []
  {
  }

  lemma FinishMatch(b: Book, aggressor: Side, quantity: int, ls: seq<Level>, orders: Orders, fills: seq<Fill>)
    requires Inv(b) && fills == MatchFills(b, aggressor, quantity)
    requires Consistent(aggressor.Opposite(), b, b.Levels(aggressor.Opposite()), ls, orders, fills)
    ensures var after := Match(b, aggressor, quantity);
            && Inv(after) && after.orders == orders
            && after.Levels(aggressor.Opposite()) == ls && after.Levels(aggressor) == b.Levels(aggressor)
  {
    MatchKeepsInv(b, aggressor, quantity);
    OtherSideAfterMatch(b, aggressor, quantity);
  }

  lemma OtherSideAfterMatch(b: Book, aggressor: Side, quantity: int)
    requires Inv(b)
    ensures Refresh(Match(b, aggressor, quantity).orders, b.Levels(aggressor)) == b.Levels(aggressor)
  {
    var after := Match(b, aggressor, quantity).orders;
    forall id | id in b.orders && b.orders[id].side == aggressor
      ensures id in after && after[id] == b.orders[id]
    {
      MatchConserves(b, aggressor, quantity, id);
    }
    OtherSideUntouched(b, aggressor, after);
  }
}
