/** The price at which each node holds an order: the original one at the order's origin, and the one
    that some number of trips over the wire has made of it everywhere else. */
module CarriedPrices {
  import opened Types
  import opened BookSpec
  import opened PriceWire
  import opened CrdtSpec
  import opened Delivery
  import opened Replication

  ghost predicate AfterTrips(original: real, price: real) {
    exists h: nat :: h >= 1 && price == Trips(original, h)
  }

  /** At its origin an operation has its price; elsewhere the price of some number of trips. */
  ghost predicate PriceOk(made: History, n: Id, op: Operation) {
    op.opId in made &&
    var original := made[op.opId].op;
    if original.originNode == n then op.order.price == original.order.price
    else AfterTrips(original.order.price, op.order.price)
  }

  ghost predicate NodePricesOk(made: History, n: Id, log: seq<Operation>) {
    forall i | 0 <= i < |log| :: PriceOk(made, n, log[i])
  }

  ghost predicate PricesOk(w: World) {
    forall n | n in w.nodes :: NodePricesOk(w.made, n, w.nodes[n].log)
  }

  lemma OneMoreTrip(original: real, price: real)
    ensures AfterTrips(original, Carried(original))
    ensures AfterTrips(original, price) ==> AfterTrips(original, Carried(price))
  {
    hide Carried;
    assert Trips(original, 0) == original && Trips(original, 1) == Carried(original);
    if AfterTrips(original, price) {
      var h: nat :| h >= 1 && price == Trips(original, h);
      assert Trips(original, h + 1) == Carried(price);
    }
  }

  /** What arrives of a held operation has made one trip more. */
  lemma ArrivedPrice(w: World, n: Id, op: Operation)
    requires LogsOk(w) && MadeOk(w) && PricesOk(w) && InTransit(w, op) && n in w.nodes && op.opId !in w.nodes[n].seen
    ensures PriceOk(w.made, n, op)
  {
    hide LogOk, Arrived, Copy, OwnClock, AfterTrips, Carried;
    var sent :| SomewhereLogged(w, sent) && op == Arrived(sent);
    var m :| m in w.nodes && sent in w.nodes[m].log;
    var i :| 0 <= i < |w.nodes[m].log| && w.nodes[m].log[i] == sent;
    LoggedIsCopy(w.nodes[m], w.made, sent);
    var original := w.made[sent.opId].op;
    assert KnownOp(w, sent.opId) && NodePricesOk(w.made, m, w.nodes[m].log);
    assert PriceOk(w.made, m, w.nodes[m].log[i]);
    ArrivedCopy(original, sent);
    CopyMeans(original, sent);
    CopyMeans(original, op);
    OneMoreTrip(original.order.price, sent.order.price);
  }

  lemma LoggedIsCopy(n: Node, made: History, op: Operation)
    requires LogOk(n, made) && op in n.log
    ensures op.opId in made && Copy(made[op.opId].op, op)
  {
    hide Copy;
    var i :| 0 <= i < |n.log| && n.log[i] == op;
  }

  lemma PriceStays(made: History, made': History, n: Id, op: Operation)
    requires PriceOk(made, n, op) && Extends(made, made')
    ensures PriceOk(made', n, op)
  {
    hide AfterTrips;
  }

  lemma OthersKeepPrices(w: World, w': World, n: Id)
    requires PricesOk(w) && OneNodeChanges(w, w', n) && Extends(w.made, w'.made)
    requires NodePricesOk(w'.made, n, w'.nodes[n].log)
    ensures PricesOk(w')
  {
    hide PriceOk, Extends;
    forall m | m in w'.nodes && m != n
      ensures NodePricesOk(w'.made, m, w'.nodes[m].log)
    {
      assert NodePricesOk(w.made, m, w.nodes[m].log);
      LogKeepsPrices(w.made, w'.made, m, w.nodes[m].log);
    }
  }

  lemma LogKeepsPrices(made: History, made': History, n: Id, log: seq<Operation>)
    requires NodePricesOk(made, n, log) && Extends(made, made')
    ensures NodePricesOk(made', n, log)
  {
    hide PriceOk, Extends;
    forall i | 0 <= i < |log|
      ensures PriceOk(made', n, log[i])
    {
      PriceStays(made, made', n, log[i]);
    }
  }

  lemma AppendKeepsPrices(made: History, n: Id, log: seq<Operation>, op: Operation)
    requires NodePricesOk(made, n, log) && PriceOk(made, n, op)
    ensures NodePricesOk(made, n, log + [op])
  {
    hide PriceOk;
  }

  lemma ShapeKeepsPrices(w: World, e: Event, w': World)
    requires ClockInv(w) && PricesOk(w) && StepShape(w, e, w') && Enabled(w, e)
    ensures PricesOk(w')
  {
    hide DepsOk, PastOk, Bounded, MadeOk, LogsOk, InTransit, OrderIdUnused, Creates, Receives, OnlyTicks, Cancellable;
    match e
    case PlaceAt(n, _, _, _, _, opId) => CreateKeepsPrices(w, w', n, w'.made[opId].op);
    case CancelAt(n, orderId, opId, _) =>
      if orderId in w.nodes[n].book.orders {
        if Cancellable(w.nodes[n].book, orderId) {
          CreateKeepsPrices(w, w', n, w'.made[opId].op);
        } else {
          TickKeepsPrices(w, w', n);
        }
      }
    case MarketAt(n, _, _) => TickKeepsPrices(w, w', n);
    case ApplyAt(n, op) =>
      if op.opId !in w.nodes[n].seen {
        ReceiveKeepsPrices(w, w', n, op);
      }
  }

  lemma CreateKeepsPrices(w: World, w': World, n: Id, op: Operation)
    requires PricesOk(w) && Creates(w, w', n, op)
    ensures PricesOk(w')
  {
    hide NodePricesOk, GoodOp, Ticked;
    LogKeepsPrices(w.made, w'.made, n, w.nodes[n].log);
    AppendKeepsPrices(w'.made, n, w.nodes[n].log, op);
    OthersKeepPrices(w, w', n);
  }

  lemma TickKeepsPrices(w: World, w': World, n: Id)
    requires PricesOk(w) && OnlyTicks(w, w', n)
    ensures PricesOk(w')
  {
    hide NodePricesOk, Ticked;
    OthersKeepPrices(w, w', n);
  }

  lemma ReceiveKeepsPrices(w: World, w': World, n: Id, op: Operation)
    requires LogsOk(w) && MadeOk(w) && PricesOk(w) && Receives(w, w', n, op) && InTransit(w, op)
    ensures PricesOk(w')
  {
    hide LogsOk, MadeOk, NodePricesOk, PriceOk, InTransit, Copy;
    ArrivedPrice(w, n, op);
    AppendKeepsPrices(w.made, n, w.nodes[n].log, op);
    OthersKeepPrices(w, w', n);
  }

  lemma StepKeepsPrices(w: World, e: Event)
    requires ClockInv(w) && PricesOk(w) && Enabled(w, e)
    ensures PricesOk(Do(w, e))
  {
    hide ClockInv, PricesOk, Do, InTransit, OrderIdUnused, StepShape;
    EveryStepHasShape(w, e);
    ShapeKeepsPrices(w, e, Do(w, e));
  }

  lemma StartPrices(w: World)
    requires Start(w)
    ensures PricesOk(w)
  {
  }

  /** In every run, with arbitrary delivery, every copy of an operation has the price it was made
      with at its origin, and the price of at least one trip everywhere else. */
  lemma {:induction false} RunKeepsPrices(ws: seq<World>, es: seq<Event>, i: nat)
    requires IsRun(ws, es) && i < |ws|
    ensures PricesOk(ws[i])
  {
    hide ClockInv, PricesOk, Do, InTransit, OrderIdUnused, IsRun, Start;
    RunStep(ws, es, i);
    if i == 0 {
      StartPrices(ws[0]);
    } else {
      RunKeepsPrices(ws, es, i - 1);
      RunKeepsClockInv(ws, es, i - 1);
      StepKeepsPrices(ws[i - 1], es[i - 1]);
    }
  }

  lemma LoggedPriceOk(w: World, n: Id, op: Operation)
    requires PricesOk(w) && n in w.nodes && op in w.nodes[n].log
    ensures PriceOk(w.made, n, op)
  {
    hide PriceOk;
    assert NodePricesOk(w.made, n, w.nodes[n].log);
    var i :| 0 <= i < |w.nodes[n].log| && w.nodes[n].log[i] == op;
  }

  /** Two nodes that hold an operation, one of them its origin, hold it at the same price if and only
      if the price survives a trip; and a price that survives is the same everywhere. */
  lemma SamePriceExactly(w: World, a: Id, b: Id, p: Operation, q: Operation)
    requires PricesOk(w) && a in w.nodes && b in w.nodes
    requires p in w.nodes[a].log && q in w.nodes[b].log && p.opId == q.opId
    ensures p.opId in w.made
    ensures var origin, price := w.made[p.opId].op.originNode, w.made[p.opId].op.order.price;
            var same := p.order.price == q.order.price;
            && (Survives(price) ==> same)
            && (a != b && (origin == a || origin == b) ==> (same <==> Survives(price)))
  {
    hide PricesOk, Survives;
    LoggedPriceOk(w, a, p);
    LoggedPriceOk(w, b, q);
    var price := w.made[p.opId].op.order.price;
    TripsEnd(price, p.order.price);
    TripsEnd(price, q.order.price);
  }

  lemma TripsEnd(original: real, price: real)
    ensures AfterTrips(original, price) ==> (price == original <==> Survives(original))
  {
    hide Survives, Trips;
    if AfterTrips(original, price) {
      var h: nat :| h >= 1 && price == Trips(original, h);
      TripsReturnExactly(original, h);
    }
  }
}
