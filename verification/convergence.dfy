/** What a replica's book is, as a function of its log and of its own fills; and when two replicas
    with the same operations show the same book. */
module Convergence {
  import opened Types
  import opened VectorClocks
  import opened BookSpec
  import opened BookIndex
  import opened Matching
  import opened BookViews
  import opened OrderBookSteps
  import opened PriceWire
  import opened CrdtSpec
  import opened Delivery
  import opened Replication
  import opened CarriedPrices
  import opened Closure
  import opened GossipSpec
  import opened Gossip

  predicate Adds(op: Operation, id: Id) {
    op.kind.AddOrder? && op.order.orderId == id
  }

  predicate Cancels(op: Operation, id: Id) {
    op.kind.CancelOrder? && op.cancelOrderId == id
  }

  /** Some cancel of the order comes after its add in the log; an earlier cancel has no effect. */
  ghost predicate Effective(log: seq<Operation>, id: Id) {
    exists i, j :: 0 <= i < j < |log| && Adds(log[i], id) && Cancels(log[j], id)
  }

  function Expected(o: Order, cancelled: bool, filled: int): Order {
    o.(remaining := o.quantity - filled, isCancelled := cancelled || filled == o.quantity)
  }

  ghost predicate Added(log: seq<Operation>, id: Id) {
    exists i :: 0 <= i < |log| && Adds(log[i], id)
  }

  /** The state of the order that op added. */
  ghost predicate OrderMatches(b: Book, log: seq<Operation>, fills: seq<Fill>, op: Operation) {
    var id := op.order.orderId;
    && id in b.orders && op.order.quantity > 0
    && b.orders[id] == Expected(op.order, Effective(log, id), FilledAmount(fills, id))
    && 0 <= FilledAmount(fills, id) <= op.order.quantity
  }

  ghost predicate BookMatches(n: Node, fills: seq<Fill>) {
    && Inv(n.book)
    && (forall id :: id in n.book.orders <==> Added(n.log, id))
    && (forall id | id !in n.book.orders :: FilledAmount(fills, id) == 0)
    && (forall i | 0 <= i < |n.log| && n.log[i].kind.AddOrder? :: OrderMatches(n.book, n.log, fills, n.log[i]))
  }

  /** An order is added by one operation only, and a cancel knows the add of its order. */
  ghost predicate HistoryOk(made: History) {
    && (forall x, y | x in made && y in made && made[x].op.kind.AddOrder? && made[y].op.kind.AddOrder? ::
          made[x].op.order.orderId == made[y].op.order.orderId ==> x == y)
    && (forall y | y in made && made[y].op.kind.CancelOrder? ::
          exists x :: Edge(made, x, y) && x in made && Adds(made[x].op, made[y].op.cancelOrderId))
  }

  ghost predicate BookInv(w: World) {
    HistoryOk(w.made) && forall n | n in w.nodes :: BookMatches(w.nodes[n], FillsOf(w, n))
  }

  // ---- how the log growing by one operation shows ----

  lemma AddedAppend(log: seq<Operation>, op: Operation, id: Id)
    ensures Added(log + [op], id) <==> Added(log, id) || Adds(op, id)
  {
    var more := log + [op];
    if Added(log, id) {
      var i :| 0 <= i < |log| && Adds(log[i], id);
      assert Adds(more[i], id);
    }
    if Adds(op, id) {
      assert Adds(more[|log|], id);
    }
  }

  lemma EffectiveAppend(log: seq<Operation>, op: Operation, id: Id)
    ensures Effective(log + [op], id) <==> Effective(log, id) || (Cancels(op, id) && Added(log, id))
  {
    var more := log + [op];
    if Effective(log, id) {
      var i, j :| 0 <= i < j < |log| && Adds(log[i], id) && Cancels(log[j], id);
      assert Adds(more[i], id) && Cancels(more[j], id);
    }
    if Cancels(op, id) && Added(log, id) {
      var i :| 0 <= i < |log| && Adds(log[i], id);
      assert Adds(more[i], id) && Cancels(more[|log|], id);
    }
    if Effective(more, id) {
      var i, j :| 0 <= i < j < |more| && Adds(more[i], id) && Cancels(more[j], id);
      assert Adds(log[i], id);
      if j < |log| {
        assert Cancels(log[j], id);
      }
    }
  }

  /** Appending an operation, with the book adjusted accordingly. */
  lemma AppendMatches(n: Node, n': Node, fills: seq<Fill>, op: Operation)
    requires BookMatches(n, fills) && n'.log == n.log + [op] && Inv(n'.book)
    requires forall id :: id in n'.book.orders <==> id in n.book.orders || Adds(op, id)
    requires op.kind.AddOrder? ==>
               && op.order.orderId !in n.book.orders && op.order.orderId in n'.book.orders
               && n'.book.orders[op.order.orderId] == op.order
               && op.order.Live() && op.order.remaining == op.order.quantity
    requires forall id | id in n.book.orders ::
               id in n'.book.orders &&
               n'.book.orders[id] == if Cancels(op, id) then n.book.orders[id].(isCancelled := true) else n.book.orders[id]
    ensures BookMatches(n', fills)
  {
    hide Inv, FilledAmount, Effective, Added, OrderMatches;
    forall id
      ensures id in n'.book.orders <==> Added(n'.log, id)
    {
      AddedAppend(n.log, op, id);
      assert id in n.book.orders <==> Added(n.log, id);
    }
    forall i | 0 <= i < |n'.log| && n'.log[i].kind.AddOrder?
      ensures OrderMatches(n'.book, n'.log, fills, n'.log[i])
    {
      if i < |n.log| {
        assert n.log[i] == n'.log[i];
        OrderKnown(n.book, n.log, fills, n.log[i]);
        OldOrderMatches(n, n', fills, op, n.log[i]);
      } else {
        NewOrderMatches(n, n', fills, op);
      }
    }
  }

  lemma OrderKnown(b: Book, log: seq<Operation>, fills: seq<Fill>, op: Operation)
    requires OrderMatches(b, log, fills, op)
    ensures op.order.orderId in b.orders
  {
  }

  lemma OldOrderMatches(n: Node, n': Node, fills: seq<Fill>, op: Operation, earlier: Operation)
    requires OrderMatches(n.book, n.log, fills, earlier) && n'.log == n.log + [op]
    requires var id := earlier.order.orderId;
             && (id in n.book.orders <==> Added(n.log, id)) && id in n'.book.orders
             && n'.book.orders[id] == if Cancels(op, id) then n.book.orders[id].(isCancelled := true) else n.book.orders[id]
    ensures OrderMatches(n'.book, n'.log, fills, earlier)
  {
    hide FilledAmount, Effective, Added;
    EffectiveAppend(n.log, op, earlier.order.orderId);
  }

  lemma NewOrderMatches(n: Node, n': Node, fills: seq<Fill>, op: Operation)
    requires BookMatches(n, fills) && n'.log == n.log + [op] && op.kind.AddOrder?
    requires op.order.orderId !in n.book.orders
    requires op.order.orderId in n'.book.orders && n'.book.orders[op.order.orderId] == op.order
    requires op.order.Live() && op.order.remaining == op.order.quantity
    ensures OrderMatches(n'.book, n'.log, fills, op)
  {
    hide Inv, FilledAmount;
    var id := op.order.orderId;
    EffectiveAppend(n.log, op, id);
    EffectiveIsAdded(n.log, id);
    assert !Added(n.log, id);
  }

  lemma EffectiveIsAdded(log: seq<Operation>, id: Id)
    ensures Effective(log, id) ==> Added(log, id)
  {
  }

  // ---- the steps ----

  lemma AddMatches(n: Node, n': Node, fills: seq<Fill>, op: Operation)
    requires BookMatches(n, fills) && op.kind.AddOrder? && GoodOp(op)
    requires op.order.orderId !in n.book.orders
    requires n'.log == n.log + [op] && n'.book == Add(n.book, op.order)
    ensures BookMatches(n', fills)
  {
    hide Inv, Enqueue;
    AddKeepsInv(n.book, op.order);
    hide BookMatches;
    MatchesInv(n, fills);
    AppendMatches(n, n', fills, op);
  }

  lemma MatchesInv(n: Node, fills: seq<Fill>)
    requires BookMatches(n, fills)
    ensures Inv(n.book)
  {
  }

  lemma CancelMatches(n: Node, n': Node, fills: seq<Fill>, op: Operation)
    requires BookMatches(n, fills) && op.kind.CancelOrder?
    requires n'.log == n.log + [op] && n'.book == Withdraw(n.book, op.cancelOrderId)
    ensures BookMatches(n', fills)
  {
    hide Inv, Refresh, BookMatches, Withdraw;
    MatchesInv(n, fills);
    WithdrawIsCancel(n.book, op.cancelOrderId);
    CancelKeepsInv(n.book, op.cancelOrderId);
    AppendMatches(n, n', fills, op);
  }

  /** A market order takes from the book exactly what is recorded as filled. */
  lemma MarketMatches(n: Node, n': Node, fills: seq<Fill>, side: Side, quantity: int)
    requires BookMatches(n, fills) && n'.log == n.log && n'.book == Match(n.book, side, quantity)
    ensures BookMatches(n', fills + MatchFills(n.book, side, quantity))
  {
    hide Inv, Refresh, Walk, FilledAmount, Effective, Settle;
    var more := MatchFills(n.book, side, quantity);
    MatchKeepsInv(n.book, side, quantity);
    forall id
      ensures id !in n.book.orders ==> FilledAmount(fills + more, id) == 0
    {
      FilledConcat(fills, more, id);
      MarketAmount(n.book, side, quantity, id);
    }
    forall i | 0 <= i < |n'.log| && n'.log[i].kind.AddOrder?
      ensures OrderMatches(n'.book, n'.log, fills + more, n'.log[i])
    {
      assert OrderMatches(n.book, n.log, fills, n.log[i]);
      MarketOrderMatches(n.book, n.log, fills, side, quantity, n.log[i]);
    }
  }

  /** A market order takes nothing from unknown or closed orders, and at most what remains. */
  lemma MarketAmount(b: Book, side: Side, quantity: int, id: Id)
    requires Inv(b)
    ensures 0 <= FilledAmount(MatchFills(b, side, quantity), id)
    ensures FilledAmount(MatchFills(b, side, quantity), id)
            <= if id in b.orders && b.orders[id].Live() then b.orders[id].remaining else 0
  {
    hide Inv, Walk, FilledAmount, Flat;
    var s := side.Opposite();
    FlatIsTheOpenOrders(b, s);
    WalkAmountRange(b.orders, s, Flat(b.Levels(s)), quantity, id);
  }

  lemma MarketOrderMatches(b: Book, log: seq<Operation>, fills: seq<Fill>, side: Side, quantity: int, op: Operation)
    requires Inv(b) && OrderMatches(b, log, fills, op)
    ensures OrderMatches(Match(b, side, quantity), log, fills + MatchFills(b, side, quantity), op)
  {
    hide Inv, Walk, FilledAmount, Flat, Effective, Refresh;
    var id := op.order.orderId;
    FilledConcat(fills, MatchFills(b, side, quantity), id);
    MarketAmount(b, side, quantity, id);
  }

  lemma OrdersAreAdded(n: Node, fills: seq<Fill>, id: Id)
    requires BookMatches(n, fills)
    ensures id in n.book.orders <==> Added(n.log, id)
  {
  }

  lemma CopyAdds(a: Operation, b: Operation, id: Id)
    requires Copy(a, b)
    ensures (Adds(a, id) <==> Adds(b, id)) && (Cancels(a, id) <==> Cancels(b, id))
    ensures GoodOp(a) <==> GoodOp(b)
  {
  }

  /** A node that knows an order holds its add. */
  lemma HeldAdd(w: World, n: Id, id: Id) returns (x: Id)
    requires ClockInv(w) && BookInv(w) && n in w.nodes && id in w.nodes[n].book.orders
    ensures x in w.nodes[n].seen && x in w.made && Adds(w.made[x].op, id)
  {
    var node := w.nodes[n];
    assert BookMatches(node, FillsOf(w, n)) && LogOk(node, w.made);
    hide BookMatches, Inv, Leq, Copy, OwnClock;
    OrdersAreAdded(node, FillsOf(w, n), id);
    var i :| 0 <= i < |node.log| && Adds(node.log[i], id);
    x := node.log[i].opId;
    assert node.log[i] in node.log;
    CopyAdds(w.made[x].op, node.log[i], id);
  }

  /** An unseen add brings an order the book has never had. */
  lemma UnseenAddIsNew(w: World, n: Id, op: Operation)
    requires ClockInv(w) && BookInv(w) && n in w.nodes && op.opId in w.made && op.opId !in w.nodes[n].seen
    requires Copy(w.made[op.opId].op, op) && op.kind.AddOrder?
    ensures op.order.orderId !in w.nodes[n].book.orders
  {
    CopyMeans(w.made[op.opId].op, op);
    hide ClockInv, BookMatches, Copy;
    if op.order.orderId in w.nodes[n].book.orders {
      var y := HeldAdd(w, n, op.order.orderId);
    }
  }

  lemma FreshOrderIsNew(w: World, n: Id, orderId: Id)
    requires ClockInv(w) && BookInv(w) && n in w.nodes && OrderIdUnused(w.made, orderId)
    ensures orderId !in w.nodes[n].book.orders
  {
    hide ClockInv, BookInv;
    if orderId in w.nodes[n].book.orders {
      var y := HeldAdd(w, n, orderId);
    }
  }

  lemma ReceiveMatches(w: World, n: Id, op: Operation)
    requires ClockInv(w) && BookInv(w) && n in w.nodes && op.opId in w.made && op.opId !in w.nodes[n].seen
    requires Copy(w.made[op.opId].op, op)
    ensures BookMatches(Received(w.nodes[n], op), FillsOf(w, n))
  {
    var node := w.nodes[n];
    assert BookMatches(node, FillsOf(w, n)) && KnownOp(w, op.opId);
    CopyAdds(w.made[op.opId].op, op, "");
    hide ClockInv, BookInv, BookMatches, Merged, Add, Withdraw, Copy;
    var next := Received(node, op);
    if op.kind.AddOrder? {
      UnseenAddIsNew(w, n, op);
      AddMatches(node, next, FillsOf(w, n), op);
    } else {
      CancelMatches(node, next, FillsOf(w, n), op);
    }
  }

  lemma PlaceMatches(w: World, e: Event)
    requires ClockInv(w) && BookInv(w) && Enabled(w, e) && e.PlaceAt?
    ensures BookMatches(Do(w, e).nodes[e.n], FillsOf(Do(w, e), e.n))
  {
    var node := w.nodes[e.n];
    assert BookMatches(node, FillsOf(w, e.n)) && node.id == e.n;
    hide ClockInv, BookInv, BookMatches, Add;
    FreshOrderIsNew(w, e.n, e.orderId);
    var op := AddOperation(Ticked(node), e.side, e.price, e.quantity, e.orderId, e.opId);
    AddMatches(node, LocalAdd(node, e.side, e.price, e.quantity, e.orderId, e.opId), FillsOf(w, e.n), op);
  }

  lemma CancelAtMatches(w: World, e: Event)
    requires BookInv(w) && Enabled(w, e) && e.CancelAt?
    ensures BookMatches(Do(w, e).nodes[e.n], FillsOf(Do(w, e), e.n))
  {
    var node := w.nodes[e.n];
    assert BookMatches(node, FillsOf(w, e.n));
    hide BookInv, BookMatches, Withdraw, Cancellable;
    var next := LocalCancel(node, e.orderId, e.opId, e.unset);
    if Cancellable(node.book, e.orderId) {
      CancelMatches(node, next, FillsOf(w, e.n), CancelOperation(Ticked(node), e.orderId, e.opId, e.unset));
    } else {
      SameBookMatches(node, next, FillsOf(w, e.n));
    }
  }

  lemma MarketAtMatches(w: World, e: Event)
    requires BookInv(w) && Enabled(w, e) && e.MarketAt?
    ensures BookMatches(Do(w, e).nodes[e.n], FillsOf(Do(w, e), e.n))
  {
    var node := w.nodes[e.n];
    assert BookMatches(node, FillsOf(w, e.n));
    hide BookInv, BookMatches, Match, MatchFills;
    MarketMatches(node, LocalMarket(node, e.side, e.quantity), FillsOf(w, e.n), e.side, e.quantity);
  }

  lemma ApplyMatches(w: World, e: Event)
    requires ClockInv(w) && BookInv(w) && Enabled(w, e) && e.ApplyAt?
    ensures BookMatches(Do(w, e).nodes[e.n], FillsOf(Do(w, e), e.n))
  {
    assert BookMatches(w.nodes[e.n], FillsOf(w, e.n));
    hide BookInv, BookMatches, Received, InTransit, LogsOk, MadeOk, Bounded, DepsOk, PastOk, Copy;
    TransitIsCopy(w, e.op);
    if e.op.opId !in w.nodes[e.n].seen {
      ReceiveMatches(w, e.n, e.op);
    }
  }

  /** The moving node's book keeps matching its log and fills. */
  lemma MovingNodeMatches(w: World, e: Event)
    requires ClockInv(w) && BookInv(w) && Enabled(w, e)
    ensures BookMatches(Do(w, e).nodes[e.n], FillsOf(Do(w, e), e.n))
  {
    hide ClockInv, BookInv, BookMatches, Do, FillsOf, InTransit, OrderIdUnused;
    match e
    case PlaceAt(_, _, _, _, _, _) => PlaceMatches(w, e);
    case CancelAt(_, _, _, _) => CancelAtMatches(w, e);
    case MarketAt(_, _, _) => MarketAtMatches(w, e);
    case ApplyAt(_, _) => ApplyMatches(w, e);
  }

  lemma SameBookMatches(n: Node, n': Node, fills: seq<Fill>)
    requires BookMatches(n, fills) && n'.log == n.log && n'.book == n.book
    ensures BookMatches(n', fills)
  {
    hide Inv, Effective, Added, FilledAmount;
  }

  lemma OthersUnmoved(w: World, e: Event, m: Id)
    requires Enabled(w, e) && m != e.n
    ensures m in Do(w, e).nodes <==> m in w.nodes
    ensures m in w.nodes ==> Do(w, e).nodes[m] == w.nodes[m]
    ensures FillsOf(Do(w, e), m) == FillsOf(w, m)
  {
    hide LocalAdd, LocalCancel, LocalMarket, Apply, Cancellable, MatchFills;
  }

  // ---- the history of operations ----

  lemma HistoryGrows(made: History, made': History, m: Made)
    requires HistoryOk(made) && m.op.opId !in made && made' == made[m.op.opId := m]
    requires m.op.kind.AddOrder? ==> OrderIdUnused(made, m.op.order.orderId)
    requires m.op.kind.CancelOrder? ==>
               exists x :: x in made && x in m.deps && Adds(made[x].op, m.op.cancelOrderId)
    ensures HistoryOk(made')
  {
    forall y | y in made' && made'[y].op.kind.CancelOrder?
      ensures exists x :: Edge(made', x, y) && x in made' && Adds(made'[x].op, made'[y].op.cancelOrderId)
    {
      if y == m.op.opId {
        var x :| x in made && x in m.deps && Adds(made[x].op, m.op.cancelOrderId);
        assert Edge(made', x, y) && Adds(made'[x].op, made'[y].op.cancelOrderId);
      } else {
        var x :| Edge(made, x, y) && x in made && Adds(made[x].op, made[y].op.cancelOrderId);
        assert Edge(made', x, y) && Adds(made'[x].op, made'[y].op.cancelOrderId);
      }
    }
  }

  lemma StepKeepsHistory(w: World, e: Event)
    requires ClockInv(w) && BookInv(w) && Enabled(w, e)
    ensures HistoryOk(Do(w, e).made)
  {
    var node := w.nodes[e.n];
    assert node.id == e.n;
    hide ClockInv, Add, Cancel, Match, MatchFills, BookMatches, Apply;
    match e
    case PlaceAt(n, side, price, quantity, orderId, opId) =>
      var op := AddOperation(Ticked(node), side, price, quantity, orderId, opId);
      hide HistoryOk;
      HistoryGrows(w.made, Do(w, e).made, Made(op, node.seen));
    case CancelAt(n, orderId, opId, unset) =>
      if Cancellable(node.book, orderId) {
        var x := HeldAdd(w, n, orderId);
        var op := CancelOperation(Ticked(node), orderId, opId, unset);
        hide HistoryOk;
        HistoryGrows(w.made, Do(w, e).made, Made(op, node.seen));
      }
    case MarketAt(n, side, quantity) =>
    case ApplyAt(n, op) =>
  }

  lemma StepKeepsBookInv(w: World, e: Event)
    requires ClockInv(w) && BookInv(w) && Enabled(w, e)
    ensures BookInv(Do(w, e))
  {
    hide ClockInv, Do, InTransit, OrderIdUnused, BookMatches, HistoryOk;
    StepKeepsHistory(w, e);
    MovingNodeMatches(w, e);
    forall m | m in Do(w, e).nodes
      ensures BookMatches(Do(w, e).nodes[m], FillsOf(Do(w, e), m))
    {
      if m != e.n { OthersUnmoved(w, e, m); }
    }
  }

  lemma StartKeepsBookInv(w: World)
    requires Start(w)
    ensures BookInv(w)
  {
  }

  /** In every run, with arbitrary delivery: a node's book is consistent and is a function of its
      log and its own fills. */
  lemma {:induction false} RunKeepsBookInv(ws: seq<World>, es: seq<Event>, i: nat)
    requires IsRun(ws, es) && i < |ws|
    ensures BookInv(ws[i])
  {
    hide ClockInv, BookInv, Do, InTransit, OrderIdUnused, IsRun, Start;
    RunStep(ws, es, i);
    if i == 0 {
      StartKeepsBookInv(ws[0]);
    } else {
      RunKeepsBookInv(ws, es, i - 1);
      RunKeepsClockInv(ws, es, i - 1);
      StepKeepsBookInv(ws[i - 1], es[i - 1]);
    }
  }

  // ---- when two replicas agree ----

  /** What one node makes of an added order: its state is fixed by the order as the node holds it,
      by whether a cancel was effective there and by how much the node filled of it. */
  lemma OrderAt(w: World, n: Id, op: Operation)
    requires BookInv(w) && n in w.nodes && op in w.nodes[n].log && op.kind.AddOrder?
    ensures OrderMatches(w.nodes[n].book, w.nodes[n].log, FillsOf(w, n), op)
  {
    assert BookMatches(w.nodes[n], FillsOf(w, n));
    hide Inv, OrderMatches, Added;
    var log := w.nodes[n].log;
    var i :| 0 <= i < |log| && log[i] == op;
  }

  lemma NodeLogOk(w: World, n: Id)
    requires ClockInv(w) && n in w.nodes
    ensures LogOk(w.nodes[n], w.made)
  {
  }

  /** A held operation is in the log, as a copy. */
  lemma HeldIsLogged(n: Node, made: History, x: Id) returns (op: Operation)
    requires LogOk(n, made) && x in n.seen
    ensures x in made && op in n.log && op.opId == x && Copy(made[x].op, op)
  {
    SeenIsLogged(n, made, x);
    hide Leq, Copy, OwnClock;
    var i :| 0 <= i < |n.log| && n.log[i].opId == x;
    op := n.log[i];
  }

  lemma LoggedIsHeld(n: Node, made: History, op: Operation)
    requires LogOk(n, made) && op in n.log
    ensures op.opId in n.seen && op.opId in made && Copy(made[op.opId].op, op)
  {
    hide Leq, Copy, OwnClock;
    LoggedIsCopy(n, made, op);
  }

  lemma CopiesAlike(a: Operation, p: Operation, q: Operation)
    requires Copy(a, p) && Copy(a, q)
    ensures Copy(p, q)
  {
  }

  /** What one of two nodes with the same operations has logged, the other has a copy of. */
  lemma SameLogs(w: World, a: Id, b: Id, p: Operation) returns (q: Operation)
    requires ClockInv(w) && a in w.nodes && b in w.nodes && w.nodes[a].seen == w.nodes[b].seen
    requires p in w.nodes[a].log
    ensures q in w.nodes[b].log && q.opId == p.opId && Copy(p, q)
  {
    NodeLogOk(w, a);
    NodeLogOk(w, b);
    hide ClockInv, LogOk, Copy;
    LoggedIsHeld(w.nodes[a], w.made, p);
    q := HeldIsLogged(w.nodes[b], w.made, p.opId);
    CopiesAlike(w.made[p.opId].op, p, q);
  }

  lemma LoggedCopies(w: World, a: Id, b: Id, p: Operation, q: Operation)
    requires ClockInv(w) && a in w.nodes && b in w.nodes && p in w.nodes[a].log && q in w.nodes[b].log && p.opId == q.opId
    ensures Copy(p, q)
  {
    NodeLogOk(w, a);
    NodeLogOk(w, b);
    hide ClockInv, LogOk, Copy;
    LoggedIsHeld(w.nodes[a], w.made, p);
    LoggedIsHeld(w.nodes[b], w.made, q);
    CopiesAlike(w.made[p.opId].op, p, q);
  }

  /** A known order was added by a logged operation. */
  lemma KnownIsAdded(w: World, a: Id, id: Id) returns (p: Operation)
    requires BookInv(w) && a in w.nodes && id in w.nodes[a].book.orders
    ensures p in w.nodes[a].log && Adds(p, id)
  {
    assert BookMatches(w.nodes[a], FillsOf(w, a));
    hide BookMatches;
    OrdersAreAdded(w.nodes[a], FillsOf(w, a), id);
    var i :| 0 <= i < |w.nodes[a].log| && Adds(w.nodes[a].log[i], id);
    p := w.nodes[a].log[i];
  }

  /** At node n the added order is cancelled, or taken whole by the node's own market orders. */
  ghost predicate ClosedAt(w: World, n: Id, op: Operation)
    requires n in w.nodes
  {
    Effective(w.nodes[n].log, op.order.orderId) || FilledAmount(FillsOf(w, n), op.order.orderId) == op.order.quantity
  }

  /** p and q are the copies at a and b of one add. The order is closed at both nodes, or open at
      both, filled equally far and held at the same price. */
  ghost predicate AgreeOn(w: World, a: Id, b: Id, p: Operation, q: Operation)
    requires a in w.nodes && b in w.nodes
  {
    if ClosedAt(w, a, p) || ClosedAt(w, b, q) then ClosedAt(w, a, p) && ClosedAt(w, b, q)
    else
      && FilledAmount(FillsOf(w, a), p.order.orderId) == FilledAmount(FillsOf(w, b), q.order.orderId)
      && p.order.price == q.order.price
  }

  /** The copies that two nodes hold of one add. */
  ghost predicate Twins(w: World, a: Id, b: Id, p: Operation, q: Operation)
    requires a in w.nodes && b in w.nodes
  {
    p in w.nodes[a].log && q in w.nodes[b].log && p.opId == q.opId && p.kind.AddOrder?
  }

  /** The order is shown by both books in the same state, or by neither. */
  predicate SameEntry(b1: Book, b2: Book, id: Id) {
    && (id in LiveOrders(b1) <==> id in LiveOrders(b2))
    && (id in LiveOrders(b1) ==> LiveOrders(b1)[id] == LiveOrders(b2)[id])
  }

  lemma ExpectedStates(o1: Order, o2: Order, e1: bool, x1: int, e2: bool, x2: int)
    requires o1.quantity > 0 && 0 <= x1 <= o1.quantity && 0 <= x2 <= o1.quantity
    requires o1.(price := o2.price) == o2
    ensures var l1, l2 := Expected(o1, e1, x1), Expected(o2, e2, x2);
            && (l1.Live() <==> !(e1 || x1 == o1.quantity))
            && (l2.Live() <==> !(e2 || x2 == o2.quantity))
            && (l1.Live() && l2.Live() ==> (l1 == l2 <==> x1 == x2 && o1.price == o2.price))
  {
  }

  lemma SameEntryMeans(b1: Book, b2: Book, id: Id)
    requires id in b1.orders && id in b2.orders
    ensures var o1, o2 := b1.orders[id], b2.orders[id];
            SameEntry(b1, b2, id) <==> (o1.Live() <==> o2.Live()) && (o1.Live() ==> o1 == o2)
  {
  }

  lemma AgreementShows(w: World, a: Id, b: Id, p: Operation, q: Operation)
    requires ClockInv(w) && BookInv(w) && a in w.nodes && b in w.nodes && Twins(w, a, b, p, q)
    ensures p.order.orderId in w.nodes[a].book.orders && q.order.orderId == p.order.orderId
    ensures AgreeOn(w, a, b, p, q) <==> SameEntry(w.nodes[a].book, w.nodes[b].book, p.order.orderId)
  {
    hide ClockInv, BookInv, AgreeOn, SameEntry, Copy, FillsOf, OrderMatches;
    LoggedCopies(w, a, b, p, q);
    CopyMeans(p, q);
    OrderAt(w, a, p);
    OrderAt(w, b, q);
    StatesShow(w, a, b, p, q);
  }

  lemma StatesShow(w: World, a: Id, b: Id, p: Operation, q: Operation)
    requires a in w.nodes && b in w.nodes && p.order.(price := q.order.price) == q.order
    requires OrderMatches(w.nodes[a].book, w.nodes[a].log, FillsOf(w, a), p)
    requires OrderMatches(w.nodes[b].book, w.nodes[b].log, FillsOf(w, b), q)
    ensures p.order.orderId in w.nodes[a].book.orders
    ensures AgreeOn(w, a, b, p, q) <==> SameEntry(w.nodes[a].book, w.nodes[b].book, p.order.orderId)
  {
    hide Expected, Effective, FilledAmount, SameEntry, FillsOf;
    var id := p.order.orderId;
    SameEntryMeans(w.nodes[a].book, w.nodes[b].book, id);
    var e1, x1 := Effective(w.nodes[a].log, id), FilledAmount(FillsOf(w, a), id);
    var e2, x2 := Effective(w.nodes[b].log, id), FilledAmount(FillsOf(w, b), id);
    ExpectedStates(p.order, q.order, e1, x1, e2, x2);
  }

  lemma SameEntriesSameOrders(b1: Book, b2: Book)
    ensures (forall id | id in b1.orders || id in b2.orders :: SameEntry(b1, b2, id)) <==> LiveOrders(b1) == LiveOrders(b2)
  {
    if forall id | id in b1.orders || id in b2.orders :: SameEntry(b1, b2, id) {
      assert forall id | id in LiveOrders(b1) || id in LiveOrders(b2) :: SameEntry(b1, b2, id);
      assert LiveOrders(b1).Keys == LiveOrders(b2).Keys;
    }
  }

  /** Nodes with the same operations hold twin copies of the add of any order either knows. */
  lemma KnownHasTwins(w: World, a: Id, b: Id, id: Id) returns (p: Operation, q: Operation)
    requires ClockInv(w) && BookInv(w) && a in w.nodes && b in w.nodes && w.nodes[a].seen == w.nodes[b].seen
    requires id in w.nodes[a].book.orders || id in w.nodes[b].book.orders
    ensures Twins(w, a, b, p, q) && p.order.orderId == id
  {
    hide ClockInv, BookInv;
    if id in w.nodes[a].book.orders {
      p := KnownIsAdded(w, a, id);
      q := SameLogs(w, a, b, p);
    } else {
      q := KnownIsAdded(w, b, id);
      p := SameLogs(w, b, a, q);
    }
  }

  /** Whatever the network did: two nodes holding the same operations have the same open orders
      exactly when every order they know is closed at both, or filled equally far at both and held
      at the same price. */
  lemma SameOperationsAgreement(w: World, a: Id, b: Id)
    requires ClockInv(w) && BookInv(w) && a in w.nodes && b in w.nodes && w.nodes[a].seen == w.nodes[b].seen
    ensures LiveOrders(w.nodes[a].book) == LiveOrders(w.nodes[b].book) <==>
            forall p, q | Twins(w, a, b, p, q) :: AgreeOn(w, a, b, p, q)
  {
    hide ClockInv, BookInv, AgreeOn, SameEntry, LiveOrders, Twins;
    var b1, b2 := w.nodes[a].book, w.nodes[b].book;
    SameEntriesSameOrders(b1, b2);
    forall p, q | Twins(w, a, b, p, q)
      ensures AgreeOn(w, a, b, p, q) <==> SameEntry(b1, b2, p.order.orderId)
      ensures p.order.orderId in b1.orders
    {
      AgreementShows(w, a, b, p, q);
    }
    forall id | id in b1.orders || id in b2.orders
      ensures exists p, q :: Twins(w, a, b, p, q) && p.order.orderId == id
    {
      var p, q := KnownHasTwins(w, a, b, id);
    }
  }

  // ---- causal delivery ----

  ghost predicate CancelLogged(log: seq<Operation>, id: Id) {
    exists j :: 0 <= j < |log| && Cancels(log[j], id)
  }

  /** A cancel's clock reaches the add of its order. */
  lemma CancelReachesAdd(w: World, y: Id) returns (x: Id)
    requires ClockInv(w) && HistoryOk(w.made) && y in w.made && w.made[y].op.kind.CancelOrder?
    ensures x in w.made && x != y && Adds(w.made[x].op, w.made[y].op.cancelOrderId)
    ensures Covers(w.made[y].op.clock.entries, w.made[x].op)
  {
    hide LogsOk, MadeOk, Bounded, PastOk;
    x :| Edge(w.made, x, y) && x in w.made && Adds(w.made[x].op, w.made[y].op.cancelOrderId);
    assert VectorClocks.At(w.made[x].op.clock.entries, w.made[x].op.originNode)
        <= VectorClocks.At(w.made[y].op.clock.entries, w.made[x].op.originNode);
  }

  /** Under causal delivery the unknown-order branch of a replicated cancel is never taken. */
  lemma CancelFindsOrder(w: World, n: Id, y: Id)
    requires ClockInv(w) && BookInv(w) && n in w.nodes && y in w.made && w.made[y].op.kind.CancelOrder?
    requires Known(w.made, w.made[y].op.clock.entries, w.nodes[n].seen + {y})
    ensures w.made[y].op.cancelOrderId in w.nodes[n].book.orders
  {
    hide BookMatches, OrderMatches, Covers;
    var x := CancelReachesAdd(w, y);
    hide HistoryOk;
    KnownAt(w.made, w.made[y].op.clock.entries, w.nodes[n].seen + {y}, x);
    NodeLogOk(w, n);
    hide ClockInv, BookInv, Copy, LogOk;
    var op := HeldIsLogged(w.nodes[n], w.made, x);
    CopyAdds(w.made[x].op, op, w.made[y].op.cancelOrderId);
    OrderAt(w, n, op);
    OrderKnown(w.nodes[n].book, w.nodes[n].log, FillsOf(w, n), op);
  }

  /** In a causally ordered log every cancel is effective. */
  lemma CancelsAreEffective(w: World, n: Id, id: Id)
    requires CausalInv(w) && HistoryOk(w.made) && n in w.nodes
    ensures Effective(w.nodes[n].log, id) <==> CancelLogged(w.nodes[n].log, id)
  {
    var log := w.nodes[n].log;
    assert NodeClosed(w.made, w.nodes[n]);
    NodeLogOk(w, n);
    hide ClockInv, HistoryOk, Covers, InOrder, Known, LogOk;
    if CancelLogged(log, id) {
      var j :| 0 <= j < |log| && Cancels(log[j], id);
      var i := AddBefore(w, n, j);
      assert Adds(log[i], id);
    }
  }

  lemma AddBefore(w: World, n: Id, j: nat) returns (i: nat)
    requires ClockInv(w) && HistoryOk(w.made) && n in w.nodes && Deliverable(w.made, w.nodes[n].log, {})
    requires j < |w.nodes[n].log| && w.nodes[n].log[j].kind.CancelOrder?
    ensures i < j && Adds(w.nodes[n].log[i], w.nodes[n].log[j].cancelOrderId)
  {
    hide ClockInv, HistoryOk, Covers, LogOk, Copy, Known, Adds;
    var log := w.nodes[n].log;
    LoggedHere(w, n, log[j]);
    CopyMeans(w.made[log[j].opId].op, log[j]);
    assert InOrder(w.made, log, {}, j);
    var x := CancelReachesAdd(w, log[j].opId);
    KnownAt(w.made, log[j].clock.entries, Ids(log[..j + 1]) + {}, x);
    i := IdAt(log[..j + 1], x);
    LoggedHere(w, n, log[i]);
    CopyAdds(w.made[x].op, log[i], log[j].cancelOrderId);
  }

  lemma LoggedHere(w: World, n: Id, op: Operation)
    requires ClockInv(w) && n in w.nodes && op in w.nodes[n].log
    ensures op.opId in w.nodes[n].seen && op.opId in w.made && Copy(w.made[op.opId].op, op)
  {
    hide ClockInv, LogOk, Copy;
    NodeLogOk(w, n);
    LoggedIsHeld(w.nodes[n], w.made, op);
  }

  /** The order is cancelled, or filled equally far at both and, unless taken whole, held at the
      same price. */
  ghost predicate Alike(w: World, a: Id, b: Id, p: Operation, q: Operation)
    requires a in w.nodes && b in w.nodes
  {
    var filled := FilledAmount(FillsOf(w, a), p.order.orderId);
    || CancelLogged(w.nodes[a].log, p.order.orderId)
    || (FilledAmount(FillsOf(w, b), p.order.orderId) == filled
        && (filled == p.order.quantity || p.order.price == q.order.price))
  }

  /** Strong convergence: under causal delivery, two nodes holding the same operations have the
      same open orders exactly when their own market orders filled every uncancelled order
      equally far and they hold those still open at the same prices. Arrival order and the number
      of concurrent cancels do not matter. */
  lemma StrongConvergence(w: World, a: Id, b: Id)
    requires CausalInv(w) && BookInv(w) && a in w.nodes && b in w.nodes && w.nodes[a].seen == w.nodes[b].seen
    ensures LiveOrders(w.nodes[a].book) == LiveOrders(w.nodes[b].book) <==>
            forall p, q | Twins(w, a, b, p, q) :: Alike(w, a, b, p, q)
  {
    hide ClockInv, NodeClosed, BookInv, LiveOrders, AgreeOn, Alike, Twins;
    SameOperationsAgreement(w, a, b);
    forall p, q | Twins(w, a, b, p, q)
      ensures AgreeOn(w, a, b, p, q) <==> Alike(w, a, b, p, q)
    {
      AlikeIsAgreeing(w, a, b, p, q);
    }
  }

  lemma AlikeIsAgreeing(w: World, a: Id, b: Id, p: Operation, q: Operation)
    requires CausalInv(w) && BookInv(w) && a in w.nodes && b in w.nodes && w.nodes[a].seen == w.nodes[b].seen
    requires Twins(w, a, b, p, q)
    ensures AgreeOn(w, a, b, p, q) <==> Alike(w, a, b, p, q)
  {
    hide ClockInv, NodeClosed, BookMatches, HistoryOk, CancelLogged, Effective, FilledAmount, Copy;
    LoggedCopies(w, a, b, p, q);
    CopyMeans(p, q);
    CancelsAreEffective(w, a, p.order.orderId);
    CancelsAreEffective(w, b, p.order.orderId);
    SameCancels(w, a, b, p.order.orderId);
    SameCancels(w, b, a, p.order.orderId);
  }

  lemma SameCancels(w: World, a: Id, b: Id, id: Id)
    requires ClockInv(w) && a in w.nodes && b in w.nodes && w.nodes[a].seen == w.nodes[b].seen
    ensures CancelLogged(w.nodes[a].log, id) ==> CancelLogged(w.nodes[b].log, id)
  {
    hide ClockInv, Copy;
    if CancelLogged(w.nodes[a].log, id) {
      var j :| 0 <= j < |w.nodes[a].log| && Cancels(w.nodes[a].log[j], id);
      var p := w.nodes[a].log[j];
      var q := SameLogs(w, a, b, p);
      CopyAdds(p, q, id);
      var k :| 0 <= k < |w.nodes[b].log| && w.nodes[b].log[k] == q;
    }
  }

  // ---- agreement in terms of the original prices ----

  /** The add x is held at n and no cancel of its order is. */
  ghost predicate Uncancelled(w: World, n: Id, x: Id)
    requires n in w.nodes
  {
    && x in w.made && x in w.nodes[n].seen && w.made[x].op.kind.AddOrder?
    && !CancelLogged(w.nodes[n].log, w.made[x].op.order.orderId)
  }

  /** The two nodes have filled the order of add x equally far and, unless they have taken all of
      it, the price it was placed at survives the wire. */
  ghost predicate FilledAlike(w: World, a: Id, b: Id, x: Id)
    requires x in w.made
  {
    var order := w.made[x].op.order;
    var filled := FilledAmount(FillsOf(w, a), order.orderId);
    filled == FilledAmount(FillsOf(w, b), order.orderId) && (filled == order.quantity || Survives(order.price))
  }

  /** One of the two nodes placed it. */
  predicate PlacedByEither(w: World, a: Id, b: Id, x: Id)
    requires x in w.made
  {
    w.made[x].op.originNode == a || w.made[x].op.originNode == b
  }

  lemma TwinsAlike(w: World, a: Id, b: Id, p: Operation, q: Operation)
    requires ClockInv(w) && PricesOk(w) && a in w.nodes && b in w.nodes && a != b && Twins(w, a, b, p, q)
    ensures p.opId in w.made
    ensures !Uncancelled(w, a, p.opId) || FilledAlike(w, a, b, p.opId) ==> Alike(w, a, b, p, q)
    ensures Uncancelled(w, a, p.opId) && PlacedByEither(w, a, b, p.opId) && Alike(w, a, b, p, q) ==> FilledAlike(w, a, b, p.opId)
  {
    NodeLogOk(w, a);
    hide ClockInv, PricesOk, CancelLogged, FilledAmount, Copy, LogOk, Survives;
    LoggedIsHeld(w.nodes[a], w.made, p);
    CopyMeans(w.made[p.opId].op, p);
    SamePriceExactly(w, a, b, p, q);
  }

  lemma HeldHasTwins(w: World, a: Id, b: Id, x: Id) returns (p: Operation, q: Operation)
    requires ClockInv(w) && a in w.nodes && b in w.nodes && w.nodes[a].seen == w.nodes[b].seen && Uncancelled(w, a, x)
    ensures Twins(w, a, b, p, q) && p.opId == x && x in w.made
  {
    NodeLogOk(w, a);
    hide ClockInv, CancelLogged, Copy, LogOk;
    p := HeldIsLogged(w.nodes[a], w.made, x);
    CopyMeans(w.made[x].op, p);
    q := SameLogs(w, a, b, p);
  }

  /** Agreement by the prices the orders were placed at: it is enough that every uncancelled order
      is filled alike and, while open, has a price that survives the wire; and for the orders that
      one of the two nodes placed this is also necessary. */
  lemma AgreementByOriginalPrices(w: World, a: Id, b: Id)
    requires CausalInv(w) && BookInv(w) && PricesOk(w) && a in w.nodes && b in w.nodes && a != b
    requires w.nodes[a].seen == w.nodes[b].seen
    ensures (forall x | Uncancelled(w, a, x) :: FilledAlike(w, a, b, x)) ==>
              LiveOrders(w.nodes[a].book) == LiveOrders(w.nodes[b].book)
    ensures LiveOrders(w.nodes[a].book) == LiveOrders(w.nodes[b].book) ==>
              forall x | Uncancelled(w, a, x) && PlacedByEither(w, a, b, x) :: FilledAlike(w, a, b, x)
  {
    hide ClockInv, NodeClosed, BookInv, PricesOk, LiveOrders, Alike, Twins, FilledAlike, Uncancelled, PlacedByEither;
    StrongConvergence(w, a, b);
    forall p, q | Twins(w, a, b, p, q)
      ensures p.opId in w.made
      ensures !Uncancelled(w, a, p.opId) || FilledAlike(w, a, b, p.opId) ==> Alike(w, a, b, p, q)
      ensures Uncancelled(w, a, p.opId) && PlacedByEither(w, a, b, p.opId) && Alike(w, a, b, p, q) ==> FilledAlike(w, a, b, p.opId)
    {
      TwinsAlike(w, a, b, p, q);
    }
    forall x | Uncancelled(w, a, x)
      ensures x in w.made && exists p, q :: Twins(w, a, b, p, q) && p.opId == x
    {
      var p, q := HeldHasTwins(w, a, b, x);
    }
  }

  // ---- runs over the network ----

  lemma NetStepKeepsBooks(net: Net, st: Step)
    requires NetInv(net) && BookInv(net.world) && PricesOk(net.world) && CanStep(net, st)
    ensures BookInv(NextNet(net, st).world) && PricesOk(NextNet(net, st).world)
  {
    hide PacketsOk, InboxOk, SnapsOk, NodeClosed, ClockInv, BookInv, PricesOk, Do, InTransit, OrderIdUnused, ReplyTo, Outgoing, Batch;
    match st
    case Local(e) =>
      StepKeepsBookInv(net.world, e);
      StepKeepsPrices(net.world, e);
    case ApplyNext(n) =>
      NextIsEnabled(net, n);
      StepKeepsBookInv(net.world, ApplyAt(n, net.inbox[n][0]));
      StepKeepsPrices(net.world, ApplyAt(n, net.inbox[n][0]));
    case _ =>
  }

  lemma {:induction false} NetRunKeepsBooks(nets: seq<Net>, steps: seq<Step>, i: nat)
    requires IsNetRun(nets, steps) && SafePushes(nets, steps) && i < |nets|
    ensures BookInv(nets[i].world) && PricesOk(nets[i].world)
  {
    hide IsNetRun, SafePushes, NetInv, CanStep, NextNet, BookInv, PricesOk, Start;
    NetRunStep(nets, steps, i);
    if i == 0 {
      StartKeepsBookInv(nets[0].world);
      StartPrices(nets[0].world);
    } else {
      NetRunKeepsBooks(nets, steps, i - 1);
      NetRunKeeps(nets, steps, i - 1);
      NetStepKeepsBooks(nets[i - 1], steps[i - 1]);
    }
  }

  /** Convergence over every run with safe pushes, at every moment. Two nodes that hold the same
      operations have the same open orders, and show the same prices and totals, if they filled the
      uncancelled orders alike and the prices of those still open survive the wire. For orders that
      one of the two placed, no less will do. */
  lemma Convergence(nets: seq<Net>, steps: seq<Step>, i: nat, a: Id, b: Id, s: Side)
    requires IsNetRun(nets, steps) && SafePushes(nets, steps) && i < |nets| && a != b
    requires var w := nets[i].world; a in w.nodes && b in w.nodes && w.nodes[a].seen == w.nodes[b].seen
    ensures var w := nets[i].world;
            var b1, b2 := w.nodes[a].book, w.nodes[b].book;
            && ((forall x | Uncancelled(w, a, x) :: FilledAlike(w, a, b, x)) ==>
                  LiveOrders(b1) == LiveOrders(b2) && Quotes(b1.Levels(s)) == Quotes(b2.Levels(s)))
            && (LiveOrders(b1) == LiveOrders(b2) ==>
                  forall x | Uncancelled(w, a, x) && PlacedByEither(w, a, b, x) :: FilledAlike(w, a, b, x))
  {
    var w := nets[i].world;
    hide IsNetRun, SafePushes, CausalInv, PacketsOk, InboxOk, SnapsOk, Uncancelled, FilledAlike, PlacedByEither,
      PricesOk, HistoryOk, OrderMatches, LiveOrders, Inv, Quotes;
    NetRunKeeps(nets, steps, i);
    NetRunKeepsBooks(nets, steps, i);
    AgreementByOriginalPrices(w, a, b);
    MatchesInv(w.nodes[a], FillsOf(w, a));
    MatchesInv(w.nodes[b], FillsOf(w, b));
    if LiveOrders(w.nodes[a].book) == LiveOrders(w.nodes[b].book) {
      SameOrdersSameQuotes(w.nodes[a].book, w.nodes[b].book, s);
    }
  }

  /** Whenever a node in such a run is about to apply a cancel, it knows the order. */
  lemma NoCancelIsLost(nets: seq<Net>, steps: seq<Step>, i: nat, n: Id)
    requires IsNetRun(nets, steps) && SafePushes(nets, steps) && i < |steps| && steps[i] == ApplyNext(n)
    ensures i < |nets| && n in nets[i].inbox && nets[i].inbox[n] != [] && n in nets[i].world.nodes
    ensures var op := nets[i].inbox[n][0];
            op.kind.CancelOrder? ==> op.cancelOrderId in nets[i].world.nodes[n].book.orders
  {
    hide SafePushes, StartNet, NextNet, CausalInv, PacketsOk, SnapsOk, BookInv, PricesOk, Known, AllInTransit;
    NetRunStep(nets, steps, i + 1);
    hide IsNetRun;
    NetRunKeeps(nets, steps, i);
    NetRunKeepsBooks(nets, steps, i);
    var w := nets[i].world;
    var ops := nets[i].inbox[n];
    DeliverableHead(w.made, ops, w.nodes[n].seen);
    HeadIsCopy(nets[i], n);
    if ops[0].kind.CancelOrder? {
      ClockPart(w);
      CancelFindsOrder(w, n, ops[0].opId);
    }
  }

  lemma HeadIsCopy(net: Net, n: Id)
    requires NetInv(net) && n in net.inbox && net.inbox[n] != []
    ensures var op := net.inbox[n][0];
            && op.opId in net.world.made && net.world.made[op.opId].op.kind == op.kind
            && net.world.made[op.opId].op.cancelOrderId == op.cancelOrderId
            && net.world.made[op.opId].op.clock == op.clock
  {
    hide PacketsOk, SnapsOk, NodeClosed, InTransit, Deliverable, Bounded, DepsOk, PastOk, LogsOk, MadeOk, Copy;
    TransitIsCopy(net.world, net.inbox[n][0]);
    CopyMeans(net.world.made[net.inbox[n][0].opId].op, net.inbox[n][0]);
  }

  lemma ClockPart(w: World)
    requires CausalInv(w)
    ensures ClockInv(w)
  {
  }
}
