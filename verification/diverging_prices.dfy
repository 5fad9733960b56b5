/** Runs in which nodes with the same operations show different prices. */
module DivergingPrices {
  import opened Types
  import opened BookSpec
  import opened BookViews
  import opened CrdtSpec
  import opened PriceWire
  import opened Delivery
  import opened Replication
  import opened Closure
  import opened GossipSpec
  import opened Gossip
  import Doubles
  import opened Counterexamples
  import LostCancels

  // ---- one order, pushed from one node to another ----

  predicate Places(a: Id, place: Event) {
    place.PlaceAt? && place.n == a && place.quantity > 0
  }

  lemma StartOfParts(a: Id, b: Id)
    ensures var net := StartNetOf(a, b); a in net.snap && b in net.inbox && net.inbox[b] == []
  {
  }

  /** A node that holds one add and nothing else. */
  ghost predicate HoldsOnly(n: Node, op: Operation, place: Event)
    requires place.PlaceAt?
  {
    && n.log == [op] && n.seen == {place.opId} && op.opId == place.opId
    && op.kind.AddOrder? && op.order.Live() && op.order.orderId == place.orderId
    && op.order.side == place.side && op.order.quantity == op.order.remaining == place.quantity
    && n.book.orders == map[place.orderId := op.order]
  }

  lemma PlacedAlone(a: Id, place: Event) returns (op: Operation)
    requires Places(a, place)
    ensures var next := LocalAdd(NewNode(a), place.side, place.price, place.quantity, place.orderId, place.opId);
            HoldsOnly(next, op, place) && op.order.price == place.price
  {
    hide Enqueue;
    op := AddOperation(Ticked(NewNode(a)), place.side, place.price, place.quantity, place.orderId, place.opId);
  }

  lemma Delivered(n: Node, b: Id, op: Operation, place: Event)
    requires place.PlaceAt? && HoldsOnly(n, op, place)
    ensures HoldsOnly(Apply(NewNode(b), Arrived(op)), Arrived(op), place)
    ensures Arrived(op).order.price == Carried(op.order.price)
  {
    hide Enqueue, Arrived, VectorClocks.Merged;
    ArrivedKeeps(op);
  }

  lemma HoldsOnlyShows(n: Node, op: Operation, place: Event)
    requires place.PlaceAt? && HoldsOnly(n, op, place)
    ensures LiveOrders(n.book) == map[place.orderId := op.order]
  {
  }

  /** a has placed its order. */
  lemma PlaceOne(a: Id, b: Id, place: Event) returns (op: Operation)
    requires a != b && Places(a, place)
    ensures var n0 := StartNetOf(a, b);
            && CanStep(n0, Local(place))
            && var n1 := NextNet(n0, Local(place));
            && n1 == n0.(world := n1.world) && n1.world.nodes.Keys == {a, b} && n1.world.fills == map[]
            && HoldsOnly(n1.world.nodes[a], op, place) && op.order.price == place.price
            && n1.world.nodes[b] == NewNode(b)
  {
    hide LocalAdd, HoldsOnly, NewNode;
    op := PlacedAlone(a, place);
  }

  /** a has pushed its only operation; b has applied what arrived. */
  lemma PushOne(n1: Net, a: Id, b: Id, op: Operation, place: Event) returns (p: Packet)
    requires a != b && place.PlaceAt? && n1.world.nodes.Keys == {a, b} && a in n1.snap
    requires HoldsOnly(n1.world.nodes[a], op, place) && n1.world.nodes[b] == NewNode(b)
    requires b in n1.inbox && n1.inbox[b] == []
    ensures CanStep(n1, Send(a, b, GossipPush)) && SafePush(n1, Send(a, b, GossipPush))
    ensures var n2 := NextNet(n1, Send(a, b, GossipPush));
            && CanStep(n2, StartBatch(b, p))
            && var n3 := NextNet(n2, StartBatch(b, p));
            && CanStep(n3, ApplyNext(b))
            && var w := NextNet(n3, ApplyNext(b)).world;
            && a in w.nodes && b in w.nodes && w.fills == n1.world.fills
            && w.nodes[a] == n1.world.nodes[a] && HoldsOnly(w.nodes[b], Arrived(op), place)
  {
    hide Arrived, ArrivedAll, ArrivedMessage, Apply, HoldsOnly, NewNode, Covers;
    var sender := n1.world.nodes[a];
    OnlyLog(sender, op, place);
    p := Packet(b, Outgoing(sender, GossipPush, n1.snap[a]));
    ArrivedMessageParts(p.msg);
    ArrivedAllAt(p.msg.operations);
    Delivered(sender, b, op, place);
  }

  lemma OnlyLog(n: Node, op: Operation, place: Event)
    requires place.PlaceAt? && HoldsOnly(n, op, place)
    ensures n.log == [op] && PushOps(n.log) == n.log
  {
  }

  lemma FourNetSteps(n0: Net, n1: Net, n2: Net, n3: Net, n4: Net, s0: Step, s1: Step, s2: Step, s3: Step)
    returns (nets: seq<Net>, steps: seq<Step>)
    requires StartNet(n0) && CanStep(n0, s0) && n1 == NextNet(n0, s0) && CanStep(n1, s1) && n2 == NextNet(n1, s1)
    requires CanStep(n2, s2) && n3 == NextNet(n2, s2) && CanStep(n3, s3) && n4 == NextNet(n3, s3)
    requires SafePush(n0, s0) && SafePush(n1, s1) && SafePush(n2, s2) && SafePush(n3, s3)
    ensures IsNetRun(nets, steps) && SafePushes(nets, steps) && |nets| == |steps| + 1 && nets[|steps|] == n4
  {
    hide StartNet, CanStep, NextNet, SafePush;
    nets, steps := [n0, n1, n2, n3, n4], [s0, s1, s2, s3];
  }

  /** Whatever the price: an order placed at one node and pushed to another stays open at both,
      with its side and quantity, and with the price cut at the second. They then hold the same
      operations, and no market order was matched, yet their open orders are equal if and only if
      the price survives the wire. */
  lemma PushedPrice(a: Id, b: Id, place: Event) returns (nets: seq<Net>, steps: seq<Step>)
    requires a != b && Places(a, place)
    ensures IsNetRun(nets, steps) && SafePushes(nets, steps)
    ensures var w := nets[|steps|].world;
            && a in w.nodes && b in w.nodes && w.nodes[a].seen == w.nodes[b].seen && w.fills == map[]
            && var shown, other := LiveOrders(w.nodes[a].book), LiveOrders(w.nodes[b].book);
            && place.orderId in shown && shown[place.orderId].price == place.price
            && place.orderId in other && other[place.orderId].price == Carried(place.price)
            && shown[place.orderId].side == other[place.orderId].side == place.side
            && shown[place.orderId].remaining == other[place.orderId].remaining == place.quantity
            && (shown == other <==> Survives(place.price))
  {
    hide CanStep, NextNet, SafePush, StartNet, StartNetOf, HoldsOnly, LiveOrders, Arrived, Carried;
    var n0 := StartNetOf(a, b);
    var op := PlaceOne(a, b, place);
    var n1 := NextNet(n0, Local(place));
    StartOfParts(a, b);
    var p := PushOne(n1, a, b, op, place);
    ArrivedKeeps(op);
    var n2 := NextNet(n1, Send(a, b, GossipPush));
    var n3 := NextNet(n2, StartBatch(b, p));
    var n4 := NextNet(n3, ApplyNext(b));
    StartNetOfIsStart(a, b);
    OthersSafe(n0, Local(place));
    OthersSafe(n2, StartBatch(b, p));
    OthersSafe(n3, ApplyNext(b));
    nets, steps := FourNetSteps(n0, n1, n2, n3, n4, Local(place), Send(a, b, GossipPush), StartBatch(b, p), ApplyNext(b));
    OnlySeen(n4.world.nodes[a], op, place);
    OnlySeen(n4.world.nodes[b], Arrived(op), place);
    HoldsOnlyShows(n4.world.nodes[a], op, place);
    HoldsOnlyShows(n4.world.nodes[b], Arrived(op), place);
    if op.order == Arrived(op).order { assert Survives(place.price); }
    assert map[place.orderId := op.order][place.orderId] == op.order;
    assert map[place.orderId := Arrived(op).order][place.orderId] == Arrived(op).order;
  }

  lemma OthersSafe(net: Net, st: Step)
    requires !st.Send?
    ensures SafePush(net, st)
  {
  }

  lemma OnlySeen(n: Node, op: Operation, place: Event)
    requires place.PlaceAt? && HoldsOnly(n, op, place)
    ensures n.seen == {place.opId}
    ensures op.order.side == place.side && op.order.remaining == place.quantity
  {
  }

  /** In particular an order at 1.00005, which is shown at 1.0 by the node it is pushed to. */
  lemma FinePriceDiverges(a: Id, b: Id, place: Event) returns (nets: seq<Net>, steps: seq<Step>)
    requires a != b && Places(a, place) && place.price == Doubles.Round(1.00005)
    ensures IsNetRun(nets, steps) && SafePushes(nets, steps)
    ensures var w := nets[|steps|].world;
            && a in w.nodes && b in w.nodes && w.nodes[a].seen == w.nodes[b].seen && w.fills == map[]
            && var shown, other := LiveOrders(w.nodes[a].book), LiveOrders(w.nodes[b].book);
            && place.orderId in shown && place.orderId in other
            && shown[place.orderId].price > 1.0 && other[place.orderId].price == 1.0
  {
    hide IsNetRun, SafePushes, LiveOrders, Carried, Doubles.Round;
    nets, steps := PushedPrice(a, b, place);
    FinePriceIsCut();
  }

  // ---- one order, relayed from node to node ----

  function Members(chain: seq<Id>): set<Id> {
    set n | n in chain
  }

  function StartOfChain(chain: seq<Id>): World {
    World(map n | n in Members(chain) :: NewNode(n), map[], map[])
  }

  predicate Distinct(chain: seq<Id>) {
    forall i, j | 0 <= i < j < |chain| :: chain[i] != chain[j]
  }

  /** The node holds the order, at the price of that many trips. */
  ghost predicate HoldsAfter(n: Node, place: Event, trips: nat)
    requires place.PlaceAt?
  {
    exists op :: HoldsOnly(n, op, place) && op.order.price == Trips(place.price, trips)
  }

  /** The first h + 1 nodes of the chain hold the order, each at the price of one trip more. */
  ghost predicate Relayed(w: World, chain: seq<Id>, place: Event, h: nat)
    requires place.PlaceAt? && h < |chain|
  {
    && w.nodes.Keys == Members(chain)
    && (forall i | 0 <= i <= h ::
          chain[i] in w.nodes && HoldsAfter(w.nodes[chain[i]], place, i))
    && (forall i | h < i < |chain| :: chain[i] in w.nodes && w.nodes[chain[i]] == NewNode(chain[i]))
  }

  lemma ChainStarts(chain: seq<Id>, place: Event)
    requires chain != [] && Distinct(chain) && Places(chain[0], place)
    ensures var w := StartOfChain(chain);
            Start(w) && Enabled(w, place) && Relayed(Do(w, place), chain, place, 0)
  {
    hide LocalAdd, HoldsOnly, Carried, NewNode;
    var op := PlacedAlone(chain[0], place);
    assert chain[0] in chain && Trips(place.price, 0) == place.price;
    assert forall i | 0 <= i < |chain| :: chain[i] in Members(chain);
    var w' := Do(StartOfChain(chain), place);
    assert w'.nodes.Keys == Members(chain);
  }

  lemma ChainGrows(w: World, chain: seq<Id>, place: Event, h: nat) returns (e: Event)
    requires place.PlaceAt? && Distinct(chain) && h + 1 < |chain| && Relayed(w, chain, place, h)
    ensures Enabled(w, e) && Relayed(Do(w, e), chain, place, h + 1)
  {
    hide Apply, HoldsOnly, Arrived, Carried, NewNode;
    assert HoldsAfter(w.nodes[chain[h]], place, h);
    var op :| HoldsOnly(w.nodes[chain[h]], op, place) && op.order.price == Trips(place.price, h);
    OnlyLog(w.nodes[chain[h]], op, place);
    assert SomewhereLogged(w, op);
    e := ApplyAt(chain[h + 1], Arrived(op));
    Delivered(w.nodes[chain[h]], chain[h + 1], op, place);
    assert Trips(place.price, h + 1) == Carried(Trips(place.price, h));
    var w' := Do(w, e);
    assert w'.nodes.Keys == w.nodes.Keys;
    forall i | 0 <= i <= h + 1
      ensures chain[i] in w'.nodes && HoldsAfter(w'.nodes[chain[i]], place, i)
    {
      if i <= h { assert chain[i] != chain[h + 1] && chain[i] in w.nodes; }
    }
  }

  lemma {:induction false} RelayRun(chain: seq<Id>, place: Event, h: nat) returns (ws: seq<World>, es: seq<Event>)
    requires chain != [] && Distinct(chain) && Places(chain[0], place) && h < |chain|
    ensures IsRun(ws, es) && |ws| == |es| + 1 && Relayed(ws[|es|], chain, place, h)
  {
    hide IsRun, Do, InTransit, OrderIdUnused, Start, Relayed, StartOfChain, Distinct;
    if h == 0 {
      ChainStarts(chain, place);
      LostCancels.StartRun(StartOfChain(chain));
      ws, es := LostCancels.ExtendRun([StartOfChain(chain)], [], place);
    } else {
      ws, es := RelayRun(chain, place, h - 1);
      var e := ChainGrows(ws[|es|], chain, place, h - 1);
      ws, es := LostCancels.ExtendRun(ws, es, e);
    }
  }

  /** However long the chain of nodes an order is relayed along, the node at distance h shows it at
      the price of h trips, although all of them hold the same operation and nothing else. */
  lemma RelayedPrice(chain: seq<Id>, place: Event) returns (ws: seq<World>, es: seq<Event>)
    requires chain != [] && Distinct(chain) && Places(chain[0], place)
    ensures IsRun(ws, es) && |ws| == |es| + 1
    ensures forall h | 0 <= h < |chain| ::
              var w := ws[|es|];
              && chain[h] in w.nodes && w.nodes[chain[h]].seen == {place.opId}
              && place.orderId in LiveOrders(w.nodes[chain[h]].book)
              && LiveOrders(w.nodes[chain[h]].book)[place.orderId].price == Trips(place.price, h)
  {
    hide IsRun, HoldsOnly, LiveOrders, Distinct, Trips;
    ws, es := RelayRun(chain, place, |chain| - 1);
    var w := ws[|es|];
    forall h | 0 <= h < |chain|
      ensures chain[h] in w.nodes && w.nodes[chain[h]].seen == {place.opId}
      ensures place.orderId in LiveOrders(w.nodes[chain[h]].book)
      ensures LiveOrders(w.nodes[chain[h]].book)[place.orderId].price == Trips(place.price, h)
    {
      assert HoldsAfter(w.nodes[chain[h]], place, h);
      var op :| HoldsOnly(w.nodes[chain[h]], op, place) && op.order.price == Trips(place.price, h);
      OnlySeen(w.nodes[chain[h]], op, place);
      HoldsOnlyShows(w.nodes[chain[h]], op, place);
    }
  }

  /** An order at 1.0010, relayed twice, is shown at three different prices by three nodes. */
  lemma ThreePricesShown(a: Id, b: Id, c: Id, place: Event) returns (ws: seq<World>, es: seq<Event>)
    requires a != b && b != c && a != c && Places(a, place) && place.price == FromTicks(10010)
    ensures IsRun(ws, es) && |ws| == |es| + 1
    ensures var w := ws[|es|];
            && a in w.nodes && b in w.nodes && c in w.nodes
            && w.nodes[a].seen == w.nodes[b].seen == w.nodes[c].seen
            && var x, y, z := LiveOrders(w.nodes[a].book), LiveOrders(w.nodes[b].book), LiveOrders(w.nodes[c].book);
            && place.orderId in x && place.orderId in y && place.orderId in z
            && x[place.orderId].price == FromTicks(10010) && y[place.orderId].price == FromTicks(10009)
            && z[place.orderId].price == FromTicks(10008)
  {
    hide IsRun, LiveOrders, FromTicks, Carried;
    var chain := [a, b, c];
    ws, es := RelayedPrice(chain, place);
    TwoTripsLoseTwo();
    assert Trips(place.price, 0) == place.price;
    assert chain[0] == a && chain[1] == b && chain[2] == c;
  }
}
