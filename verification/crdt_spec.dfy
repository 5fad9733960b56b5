/** One replica as a value, and what each of its methods does to it. */
module CrdtSpec {
  import opened Types
  import opened VectorClocks
  import opened BookSpec

  datatype Node = Node(id: Id, clock: Clock, log: seq<Operation>, seen: set<Id>, book: Book)

  function NewNode(id: Id): Node {
    Node(id, Clock(id, map[id := 0]), [], {}, EMPTY_BOOK)
  }

  function Ticked(n: Node): Node {
    n.(clock := n.clock.(entries := n.clock.entries[n.id := At(n.clock.entries, n.id) + 1]))
  }

  function Logged(n: Node, op: Operation): Node {
    n.(log := n.log + [op], seen := n.seen + {op.opId})
  }

  /** The operation a local add logs; n is the ticked node. */
  function AddOperation(n: Node, side: Side, price: real, quantity: int, orderId: Id, opId: Id): Operation {
    var order := Order(orderId, n.id, side, price, quantity, quantity, At(n.clock.entries, n.id), false);
    Operation(AddOrder, order, "", n.id, n.clock, opId)
  }

  function LocalAdd(n: Node, side: Side, price: real, quantity: int, orderId: Id, opId: Id): Node {
    var t := Ticked(n);
    var op := AddOperation(t, side, price, quantity, orderId, opId);
    Logged(t.(book := Add(t.book, op.order)), op)
  }

  /** The operation a successful local cancel logs; its order field is never set, so it is arbitrary. */
  function CancelOperation(n: Node, orderId: Id, opId: Id, unset: Order): Operation {
    Operation(CancelOrder, unset, orderId, n.id, n.clock, opId)
  }

  /** An unknown order changes nothing; a closed one still ticks the clock but logs nothing. */
  function LocalCancel(n: Node, orderId: Id, opId: Id, unset: Order): Node {
    if orderId !in n.book.orders then n
    else
      var t := Ticked(n);
      if !Cancellable(n.book, orderId) then t
      else Logged(t.(book := Withdraw(t.book, orderId)), CancelOperation(t, orderId, opId, unset))
  }

  /** Ticks the clock and matches; fills are never logged. */
  function LocalMarket(n: Node, side: Side, quantity: int): Node {
    Ticked(n).(book := Match(n.book, side, quantity))
  }

  function ApplyToBook(b: Book, op: Operation): Book {
    match op.kind
    case AddOrder => InsertReplicated(b, op.order)
    case CancelOrder => Withdraw(b, op.cancelOrderId)
    case OtherOp(_) => b
  }

  function Received(n: Node, op: Operation): Node {
    Logged(n.(clock := n.clock.(entries := Merged(n.clock.entries, op.clock.entries)),
              book := ApplyToBook(n.book, op)), op)
  }

  /** A seen operation changes nothing. */
  function Apply(n: Node, op: Operation): Node {
    if op.opId in n.seen then n else Received(n, op)
  }

  function ApplyAll(n: Node, ops: seq<Operation>): Node
    decreases ops
  {
    if ops == [] then n else ApplyAll(Apply(n, ops[0]), ops[1..])
  }

  /** The peer's clock neither dominates nor equals the operation's: it may miss the operation. */
  ghost predicate Missing(op: Operation, peer: Entries) {
    !Before(op.clock.entries, peer) && op.clock.entries != peer
  }

  ghost function Since(log: seq<Operation>, peer: Entries): seq<Operation> {
    if log == [] then []
    else
      var last := log[|log| - 1];
      Since(log[..|log| - 1], peer) + (if Missing(last, peer) then [last] else [])
  }

  function Ids(ops: seq<Operation>): set<Id> {
    set op | op in ops :: op.opId
  }

  const PUSH_LIMIT: nat := 20

  /** What a push round sends: the whole log, or its last PUSH_LIMIT operations. */
  function PushOps(log: seq<Operation>): seq<Operation> {
    if |log| > PUSH_LIMIT then log[|log| - PUSH_LIMIT..] else log
  }

  /** What a push-pull reply keeps of the operations the peer may miss: the first PUSH_LIMIT. */
  function FirstOps(ops: seq<Operation>): seq<Operation> {
    if |ops| > PUSH_LIMIT then ops[..PUSH_LIMIT] else ops
  }

  // ---- what the local operations do ----

  /** A local add places the order it was asked for, under the node's name and at its new tick,
      logs that very order, and touches no other order. */
  lemma LocalAddPlaces(n: Node, side: Side, price: real, quantity: int, orderId: Id, opId: Id)
    ensures var after := LocalAdd(n, side, price, quantity, orderId, opId);
            var tick := At(n.clock.entries, n.id) + 1;
            && after.id == n.id && after.clock == n.clock.(entries := n.clock.entries[n.id := tick])
            && |after.log| == |n.log| + 1 && after.log[..|n.log|] == n.log && after.seen == n.seen + {opId}
            && var op := after.log[|n.log|];
            && op.kind.AddOrder? && op.opId == opId && op.originNode == n.id && op.clock == after.clock
            && op.order.orderId == orderId && op.order.nodeId == n.id && op.order.timestamp == tick
            && op.order.side == side && op.order.price == price
            && op.order.quantity == quantity && op.order.remaining == quantity && !op.order.isCancelled
            && after.book.orders == n.book.orders[orderId := op.order]
            && after.book.Levels(side.Opposite()) == n.book.Levels(side.Opposite())
  {
    hide Enqueue;
  }

  /** With a positive quantity the open orders grow by exactly the order asked for. */
  lemma LocalAddOpens(n: Node, side: Side, price: real, quantity: int, orderId: Id, opId: Id)
    requires quantity > 0 && orderId !in n.book.orders
    ensures var order := Order(orderId, n.id, side, price, quantity, quantity, At(n.clock.entries, n.id) + 1, false);
            && orderId !in LiveOrders(n.book)
            && LiveOrders(LocalAdd(n, side, price, quantity, orderId, opId).book) == LiveOrders(n.book)[orderId := order]
  {
    hide Enqueue;
  }

  /** A successful local cancel closes exactly the order it names and logs one cancel of it; one of
      a closed order is a bare tick; one of an unknown order is nothing. */
  lemma LocalCancelCloses(n: Node, orderId: Id, opId: Id, unset: Order)
    ensures var after := LocalCancel(n, orderId, opId, unset);
            var tick := At(n.clock.entries, n.id) + 1;
            && (orderId !in n.book.orders ==> after == n)
            && (orderId in n.book.orders ==> after.clock == n.clock.(entries := n.clock.entries[n.id := tick]))
            && (orderId in n.book.orders && n.book.orders[orderId].isCancelled ==> after == n.(clock := after.clock))
            && (orderId in n.book.orders && !n.book.orders[orderId].isCancelled ==>
                  && |after.log| == |n.log| + 1 && after.log[..|n.log|] == n.log && after.seen == n.seen + {opId}
                  && var op := after.log[|n.log|];
                  && op.kind.CancelOrder? && op.opId == opId && op.originNode == n.id && op.clock == after.clock
                  && op.cancelOrderId == orderId
                  && after.book.orders == n.book.orders[orderId := n.book.orders[orderId].(isCancelled := true)]
                  && LiveOrders(after.book) == LiveOrders(n.book) - {orderId})
  {
    hide Removed;
  }

  // ---- what a batch leaves behind ----

  lemma IdsFirst(ops: seq<Operation>)
    requires ops != []
    ensures Ids(ops) == {ops[0].opId} + Ids(ops[1..])
  {
    assert forall y :: y in ops <==> y == ops[0] || y in ops[1..];
  }

  lemma NoIds()
    ensures Ids([]) == {}
  {
  }

  lemma ApplyLogs(n: Node, op: Operation)
    ensures var after := Apply(n, op);
            && after.seen == n.seen + {op.opId}
            && after.log == if op.opId in n.seen then n.log else n.log + [op]
  {
    hide ApplyToBook, Merged;
  }

  /** Applying a batch logs, once each, exactly what was new in it. */
  lemma {:induction false} BatchLogged(n: Node, ops: seq<Operation>) returns (added: seq<Operation>)
    ensures ApplyAll(n, ops).seen == n.seen + Ids(ops) && ApplyAll(n, ops).log == n.log + added
    ensures forall op | op in added :: op in ops && op.opId !in n.seen
    ensures forall i, j | 0 <= i < j < |added| :: added[i].opId != added[j].opId
    ensures Ids(added) == Ids(ops) - n.seen
    decreases |ops|
  {
    hide Apply;
    if ops == [] {
      added := [];
      NoIds();
    } else {
      var first := ops[0];
      ApplyLogs(n, first);
      var rest := BatchLogged(Apply(n, first), ops[1..]);
      IdsFirst(ops);
      if first.opId in n.seen {
        added := rest;
      } else {
        added := [first] + rest;
        IdsFirst(added);
        assert added[1..] == rest;
      }
    }
  }

  // ---- what a peer may miss ----

  /** ops is what is left of the log, in log order, when every operation is dropped whose clock is
      strictly below the peer's or is the very same map; at lists where the others stand. */
  ghost predicate Sifted(log: seq<Operation>, peer: Entries, at: seq<nat>, ops: seq<Operation>) {
    && (forall i, j | 0 <= i < j < |at| :: at[i] < at[j])
    && (forall k: nat :: k in at <==> k < |log| && !Before(log[k].clock.entries, peer) && log[k].clock.entries != peer)
    && |ops| == |at| && forall i | 0 <= i < |at| :: at[i] < |log| && ops[i] == log[at[i]]
  }

  lemma {:induction false} SinceSifts(log: seq<Operation>, peer: Entries) returns (at: seq<nat>)
    ensures Sifted(log, peer, at, Since(log, peer))
  {
    hide Before;
    if log == [] {
      at := [];
    } else {
      var last := |log| - 1;
      at := SinceSifts(log[..last], peer);
      forall k | k in at
        ensures k < last
      {
      }
      if Missing(log[last], peer) {
        at := at + [last];
      }
    }
  }

  /** In particular, membership. */
  lemma SiftedMembers(log: seq<Operation>, peer: Entries, at: seq<nat>, ops: seq<Operation>)
    requires Sifted(log, peer, at, ops)
    ensures forall op :: op in ops <==> op in log && !Before(op.clock.entries, peer) && op.clock.entries != peer
  {
    hide Before;
    forall op | op in log && !Before(op.clock.entries, peer) && op.clock.entries != peer
      ensures op in ops
    {
      var k :| 0 <= k < |log| && log[k] == op;
      var i :| 0 <= i < |at| && at[i] == k;
      assert ops[i] == op;
    }
    forall op | op in ops
      ensures op in log && !Before(op.clock.entries, peer) && op.clock.entries != peer
    {
      var i :| 0 <= i < |ops| && ops[i] == op;
      assert at[i] in at;
    }
  }
}

/** The replicated order book class, updated in place, against the node value. */
module CrdtBooks {
  import opened Types
  import opened VectorClocks
  import opened BookSpec
  import opened BookIndex
  import opened Matching
  import opened OrderBooks
  import opened CrdtSpec

  class CrdtOrderBook {
    const nodeId: Id
    const book: OrderBook
    const clock: VectorClock
    var opLog: seq<Operation>
    var seenOps: set<Id>

    ghost function View(): Node
      reads this, book, clock
    {
      Node(nodeId, clock.Value(), opLog, seenOps, book.State())
    }

    /** The parts belong together; the book may be in any state. */
    ghost predicate Wired()
      reads this, clock
    {
      clock.nodeId == nodeId
    }

    ghost predicate Valid()
      reads this, book, clock
    {
      Wired() && book.Valid()
    }

    constructor (nodeId: Id)
      ensures View() == NewNode(nodeId) && Valid()
      ensures fresh(book) && fresh(clock)
    {
      this.nodeId := nodeId;
      this.book := new OrderBook();
      this.clock := new VectorClock(nodeId);
      this.opLog := [];
      this.seenOps := {};
    }

    /** Places a local order; orderId and opId are the fresh unique ids it generates. A consistent
        book stays so if and only if the quantity is positive. */
    method LocalAddOrder(side: Side, price: real, quantity: int, orderId: Id, opId: Id) returns (id: Id)
      requires Wired() && orderId !in book.orders
      modifies this, book, clock
      ensures id == orderId && Wired()
      ensures View() == LocalAdd(old(View()), side, price, quantity, orderId, opId)
      ensures var tick := At(old(clock.entries), nodeId) + 1;
              var order := Order(orderId, nodeId, side, price, quantity, quantity, tick, false);
              && book.orders == old(book.orders)[orderId := order]
              && opLog == old(opLog) + [Operation(AddOrder, order, "", nodeId, Clock(nodeId, clock.entries), opId)]
              && clock.entries == old(clock.entries)[nodeId := tick]
              && (quantity > 0 ==> LiveOrders(book.State()) == LiveOrders(old(book.State()))[orderId := order])
      ensures old(Valid()) ==> (Valid() <==> quantity > 0)
    {
      hide Inv, Add, LiveOrders;
      ghost var before := View();
      LocalAddPlaces(before, side, price, quantity, orderId, opId);
      if quantity > 0 {
        LocalAddOpens(before, side, price, quantity, orderId, opId);
      }
      var ts := clock.Tick();
      var order := Order(orderId, nodeId, side, price, quantity, quantity, ts, false);
      id := book.AddOrder(order);
      var op := Operation(AddOrder, order, "", nodeId, Clock(nodeId, clock.entries), opId);
      opLog := opLog + [op];
      seenOps := seenOps + {op.opId};
    }

    /** Cancels an open order; unset stands for the operation's uninitialised order field. */
    method LocalCancelOrder(orderId: Id, opId: Id, unset: Order) returns (ok: bool)
      requires Wired()
      modifies this, book, clock
      ensures ok <==> orderId in old(book.orders) && !old(book.orders)[orderId].isCancelled
      ensures View() == LocalCancel(old(View()), orderId, opId, unset) && Wired()
      ensures old(Valid()) ==> Valid()
    {
      hide Inv, Withdraw, Cancel;
      if !book.HasOrder(orderId) {
        return false;
      }
      var ts := clock.Tick();
      var cancelled := book.CancelOrder(orderId);
      if !cancelled {
        WithdrawRefused(old(book.State()), orderId);
        return false;
      }
      var op := Operation(CancelOrder, unset, orderId, nodeId, Clock(nodeId, clock.entries), opId);
      opLog := opLog + [op];
      seenOps := seenOps + {op.opId};
      return true;
    }

    /** Matches a market order. The loop over the fills is meant to log a cancel for every order
        that has left the book, but no order ever leaves the order map, so it logs nothing. */
    method LocalMarketOrder(side: Side, quantity: int) returns (fills: seq<Fill>)
      requires Valid()
      modifies this, book, clock
      ensures fills == MatchFills(old(View()).book, side, quantity)
      ensures View() == LocalMarket(old(View()), side, quantity) && Valid()
    {
      hide Inv, Match, MatchFills;
      ghost var before := book.State();
      var ts := clock.Tick();
      fills := book.MatchMarketOrder(side, quantity);
      FilledOrdersKnown(before, side, quantity);
      var i := 0;
      while i < |fills|
        invariant 0 <= i <= |fills|
        invariant forall k | 0 <= k < |fills| :: fills[k].orderId in book.orders
        invariant View() == LocalMarket(old(View()), side, quantity) && Valid()
      {
        if !book.HasOrder(fills[i].orderId) {
          // the only place that would log a fill; never reached
          assert false;
        }
        i := i + 1;
      }
    }

    /** Applies a remote operation once, whatever it carries. A consistent book stays so unless the
        operation newly adds an order that is not open. */
    method ApplyRemoteOperation(op: Operation) returns (applied: bool)
      requires Wired()
      modifies this, book, clock
      ensures applied <==> op.opId !in old(View()).seen
      ensures View() == Apply(old(View()), op) && Wired()
      ensures old(Valid()) ==>
                (Valid() <==> (applied && op.kind.AddOrder? && op.order.orderId !in old(book.orders) ==> op.order.Live()))
    {
      hide Inv, Withdraw, Cancel, InsertReplicated;
      if op.opId in seenOps {
        return false;
      }
      clock.Merge(op.clock);
      if op.kind.AddOrder? {
        book.InsertReplicatedOrder(op.order);
      } else if op.kind.CancelOrder? {
        book.ApplyReplicatedCancel(op.cancelOrderId);
      }
      opLog := opLog + [op];
      seenOps := seenOps + {op.opId};
      return true;
    }

    /** The logged operations a peer with this clock may miss, in log order. */
    method GetOperationsSince(peer: Clock) returns (result: seq<Operation>)
      ensures result == Since(opLog, peer.entries)
      ensures exists at :: Sifted(opLog, peer.entries, at, result)
      ensures forall op :: op in result <==>
                op in opLog && !Before(op.clock.entries, peer.entries) && op.clock.entries != peer.entries
    {
      result := [];
      var i := 0;
      while i < |opLog|
        invariant 0 <= i <= |opLog|
        invariant result == Since(opLog[..i], peer.entries)
      {
        var op := opLog[i];
        var before := VectorClock.DecideBefore(op.clock.entries, peer.entries);
        if !before && op.clock.entries != peer.entries {
          result := result + [op];
        }
        assert opLog[..i + 1][..i] == opLog[..i];
        i := i + 1;
      }
      assert opLog[..i] == opLog;
      ghost var at := SinceSifts(opLog, peer.entries);
      SiftedMembers(opLog, peer.entries, at, result);
    }

    function GetClock(): Clock
      reads this, clock
    {
      Clock(nodeId, clock.entries)
    }
  }

  lemma WithdrawRefused(b: Book, id: Id)
    ensures !Cancellable(b, id) ==> Withdraw(b, id) == b
  {
  }

  lemma FilledOrdersKnown(b: Book, side: Side, quantity: int)
    requires Inv(b)
    ensures forall k | 0 <= k < |MatchFills(b, side, quantity)| ::
              MatchFills(b, side, quantity)[k].orderId in Match(b, side, quantity).orders
  {
    var s := side.Opposite();
    FlatIsTheOpenOrders(b, s);
    WalkIsGreedyPrefix(b.orders, s, Flat(b.Levels(s)), quantity);
  }
}
