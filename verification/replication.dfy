/** The replicas as a transition system. Any node may place, cancel and match locally, and may
    receive what arrives of any operation that any node has logged, in any order and any number of
    times: messages can be lost, duplicated and reordered at will. Every trip carries the price over
    the wire. The history of operations is kept as ghost knowledge. */
module Replication {
  import opened Types
  import opened VectorClocks
  import opened BookSpec
  import opened CrdtSpec
  import opened Delivery

  /** An operation with the ids its origin had logged when it was made. */
  datatype Made = Made(op: Operation, deps: set<Id>)

  type History = map<Id, Made>

  /** fills records what each node's own market orders have taken, which is never replicated. */
  datatype World = World(nodes: map<Id, Node>, made: History, fills: map<Id, seq<Fill>>)

  datatype Event =
    | PlaceAt(n: Id, side: Side, price: real, quantity: int, orderId: Id, opId: Id)
    | CancelAt(n: Id, orderId: Id, opId: Id, unset: Order)
    | MarketAt(n: Id, side: Side, quantity: int)
    | ApplyAt(n: Id, op: Operation)

  predicate Start(w: World) {
    && w.made == map[] && w.fills == map[]
    && forall n | n in w.nodes :: w.nodes[n] == NewNode(n)
  }

  function FillsOf(w: World, n: Id): seq<Fill> {
    if n in w.fills then w.fills[n] else []
  }

  predicate OrderIdUnused(made: History, orderId: Id) {
    forall k | k in made :: made[k].op.kind.AddOrder? ==> made[k].op.order.orderId != orderId
  }

  ghost predicate SomewhereLogged(w: World, op: Operation) {
    exists m :: m in w.nodes && op in w.nodes[m].log
  }

  /** What arrives of an operation that some node has logged. */
  ghost predicate InTransit(w: World, op: Operation) {
    exists sent :: SomewhereLogged(w, sent) && op == Arrived(sent)
  }

  /** Quantities are positive and generated ids are new; everything else is always possible. */
  ghost predicate Enabled(w: World, e: Event) {
    e.n in w.nodes &&
    match e
    case PlaceAt(_, _, _, quantity, orderId, opId) =>
      quantity > 0 && opId !in w.made && OrderIdUnused(w.made, orderId)
    case CancelAt(_, _, opId, _) => opId !in w.made
    case MarketAt(_, _, _) => true
    case ApplyAt(_, op) => InTransit(w, op)
  }

  function Do(w: World, e: Event): World
    requires e.n in w.nodes
  {
    var node := w.nodes[e.n];
    match e
    case PlaceAt(n, side, price, quantity, orderId, opId) =>
      var next := LocalAdd(node, side, price, quantity, orderId, opId);
      w.(nodes := w.nodes[n := next], made := w.made[opId := Made(next.log[|node.log|], node.seen)])
    case CancelAt(n, orderId, opId, unset) =>
      var next := LocalCancel(node, orderId, opId, unset);
      var made := if Cancellable(node.book, orderId) then w.made[opId := Made(next.log[|node.log|], node.seen)] else w.made;
      w.(nodes := w.nodes[n := next], made := made)
    case MarketAt(n, side, quantity) =>
      w.(nodes := w.nodes[n := LocalMarket(node, side, quantity)],
         fills := w.fills[n := FillsOf(w, n) + MatchFills(node.book, side, quantity)])
    case ApplyAt(n, op) =>
      w.(nodes := w.nodes[n := Apply(node, op)])
  }

  ghost predicate IsRun(ws: seq<World>, es: seq<Event>) {
    && |ws| == |es| + 1 && Start(ws[0])
    && forall i | 0 <= i < |es| :: Enabled(ws[i], es[i]) && ws[i + 1] == Do(ws[i], es[i])
  }

  // ---- causality ----

  function Own(op: Operation): nat {
    At(op.clock.entries, op.originNode)
  }

  /** The clock has reached the operation's own tick. */
  predicate Covers(c: Entries, op: Operation) {
    Own(op) <= At(c, op.originNode)
  }

  /** x was in the log of y's origin when y was made. */
  predicate Edge(made: History, x: Id, y: Id) {
    y in made && x in made[y].deps
  }

  ghost predicate Path(made: History, p: seq<Id>, x: Id, y: Id) {
    && |p| >= 2 && p[0] == x && p[|p| - 1] == y
    && forall i, j | 0 <= i && j == i + 1 && j < |p| :: Edge(made, p[i], p[j])
  }

  /** Causal precedence: through local order and log receipt, in any number of steps. */
  ghost predicate Precedes(made: History, x: Id, y: Id) {
    exists p: seq<Id> :: Path(made, p, x, y)
  }

  lemma PrecedesEdge(made: History, x: Id, y: Id)
    requires Edge(made, x, y)
    ensures Precedes(made, x, y)
  {
    assert Path(made, [x, y], x, y);
  }

  lemma PrecedesStep(made: History, x: Id, z: Id, y: Id)
    requires Precedes(made, x, z) && Edge(made, z, y)
    ensures Precedes(made, x, y)
  {
    var p :| Path(made, p, x, z);
    assert Path(made, p + [y], x, y);
  }

  ghost predicate Extends(made: History, made': History) {
    forall k | k in made :: k in made' && made'[k] == made[k]
  }

  lemma PrecedesGrows(made: History, made': History, x: Id, y: Id)
    requires Extends(made, made') && Precedes(made, x, y)
    ensures Precedes(made', x, y)
  {
    var p :| Path(made, p, x, y);
    assert Path(made', p, x, y);
  }

  /** x is held, or precedes something held. */
  ghost predicate InPast(made: History, seen: set<Id>, x: Id) {
    exists z :: z in seen && (z == x || Precedes(made, x, z))
  }

  lemma InPastGrows(made: History, made': History, seen: set<Id>, seen': set<Id>, x: Id)
    requires Extends(made, made') && seen <= seen' && InPast(made, seen, x)
    ensures InPast(made', seen', x)
  {
    var z :| z in seen && (z == x || Precedes(made, x, z));
    if z != x {
      PrecedesGrows(made, made', x, z);
    }
    assert z in seen';
  }

  // ---- what every run keeps about logs and clocks ----

  ghost predicate LogOk(n: Node, made: History) {
    && n.seen == Ids(n.log)
    && (forall i, j | 0 <= i < j < |n.log| :: n.log[i].opId != n.log[j].opId)
    && (forall i | 0 <= i < |n.log| :: n.log[i].opId in made && Copy(made[n.log[i].opId].op, n.log[i]))
    && (forall i | 0 <= i < |n.log| :: Leq(n.log[i].clock.entries, n.clock.entries))
    && OwnClock(n.clock)
  }

  ghost predicate LogsOk(w: World) {
    forall n | n in w.nodes :: w.nodes[n].id == n && w.nodes[n].clock.nodeId == n && LogOk(w.nodes[n], w.made)
  }

  predicate GoodOp(op: Operation) {
    && !op.kind.OtherOp? && OwnClock(op.clock)
    && (op.kind.AddOrder? ==> op.order.Live() && op.order.remaining == op.order.quantity)
  }

  /** An operation is well formed, has a positive own tick and is held by its origin. */
  predicate KnownOp(w: World, k: Id)
    requires k in w.made
  {
    var op := w.made[k].op;
    && op.opId == k && GoodOp(op) && Own(op) >= 1
    && op.originNode in w.nodes && k in w.nodes[op.originNode].seen
  }

  /** Own ticks of one origin are all different. */
  ghost predicate TicksDistinct(made: History) {
    forall k, l | k in made && l in made && k != l ::
      made[k].op.originNode == made[l].op.originNode ==> Own(made[k].op) != Own(made[l].op)
  }

  ghost predicate MadeOk(w: World) {
    TicksDistinct(w.made) && forall k | k in w.made :: KnownOp(w, k)
  }

  /** Nobody knows more ticks of a node than the node itself. */
  ghost predicate Bounded(w: World) {
    forall m, n | m in w.nodes && n in w.nodes ::
      At(w.nodes[m].clock.entries, n) <= At(w.nodes[n].clock.entries, n)
  }

  /** An operation's clock is above those its origin had logged, and its own tick is new to them. */
  ghost predicate DepsOk(w: World) {
    forall y, x | y in w.made && x in w.made[y].deps ::
      && x in w.made && Leq(w.made[x].op.clock.entries, w.made[y].op.clock.entries)
      && !Covers(w.made[x].op.clock.entries, w.made[y].op)
  }

  /** Clocks only reach operations in the causal past. */
  ghost predicate PastOk(w: World) {
    && (forall x, y | x in w.made && y in w.made && Covers(w.made[y].op.clock.entries, w.made[x].op) ::
          x == y || Precedes(w.made, x, y))
    && (forall n, x | n in w.nodes && x in w.made && Covers(w.nodes[n].clock.entries, w.made[x].op) ::
          InPast(w.made, w.nodes[n].seen, x))
  }

  ghost predicate ClockInv(w: World) {
    LogsOk(w) && MadeOk(w) && Bounded(w) && DepsOk(w) && PastOk(w)
  }

  // ---- the three ways a step touches logs and clocks ----

  ghost predicate OneNodeChanges(w: World, w': World, n: Id) {
    && n in w.nodes && w'.nodes.Keys == w.nodes.Keys
    && (forall m | m in w.nodes && m != n :: w'.nodes[m] == w.nodes[m])
    && w'.nodes[n].id == w.nodes[n].id && w'.nodes[n].clock.nodeId == w.nodes[n].clock.nodeId
  }

  ghost predicate Creates(w: World, w': World, n: Id, op: Operation) {
    && OneNodeChanges(w, w', n) && op.opId !in w.made && GoodOp(op) && op.originNode == n
    && w'.made == w.made[op.opId := Made(op, w.nodes[n].seen)]
    && op.clock == Ticked(w.nodes[n]).clock == w'.nodes[n].clock
    && w'.nodes[n].log == w.nodes[n].log + [op] && w'.nodes[n].seen == w.nodes[n].seen + {op.opId}
  }

  ghost predicate OnlyTicks(w: World, w': World, n: Id) {
    && OneNodeChanges(w, w', n) && w'.made == w.made
    && w'.nodes[n].clock == Ticked(w.nodes[n]).clock
    && w'.nodes[n].log == w.nodes[n].log && w'.nodes[n].seen == w.nodes[n].seen
  }

  ghost predicate Receives(w: World, w': World, n: Id, op: Operation) {
    && OneNodeChanges(w, w', n) && w'.made == w.made
    && op.opId in w.made && Copy(w.made[op.opId].op, op) && op.opId !in w.nodes[n].seen
    && w'.nodes[n].clock.entries == Merged(w.nodes[n].clock.entries, op.clock.entries)
    && w'.nodes[n].log == w.nodes[n].log + [op] && w'.nodes[n].seen == w.nodes[n].seen + {op.opId}
  }

  lemma TickedAt(n: Node, k: Id)
    ensures At(Ticked(n).clock.entries, k) == At(n.clock.entries, k) + (if k == n.id then 1 else 0)
  {
  }

  lemma TickedLeq(n: Node)
    ensures Leq(n.clock.entries, Ticked(n).clock.entries)
  {
    forall k
      ensures At(n.clock.entries, k) <= At(Ticked(n).clock.entries, k)
    {
      TickedAt(n, k);
    }
  }

  lemma TickedOwn(n: Node)
    ensures OwnClock(n.clock) ==> OwnClock(Ticked(n).clock)
  {
  }

  lemma SeenIsLogged(n: Node, made: History, x: Id)
    requires LogOk(n, made) && x in n.seen
    ensures x in made && Leq(made[x].op.clock.entries, n.clock.entries)
    ensures exists i :: 0 <= i < |n.log| && n.log[i].opId == x
  {
    var op :| op in n.log && op.opId == x;
    var i :| 0 <= i < |n.log| && n.log[i] == op;
    assert n.log[i].opId in made;
  }

  /** No operation has an own tick beyond its origin's clock. */
  lemma OwnBelowOrigin(w: World, x: Id)
    requires LogsOk(w) && MadeOk(w) && x in w.made
    ensures Covers(w.nodes[w.made[x].op.originNode].clock.entries, w.made[x].op)
  {
    var o := w.made[x].op.originNode;
    SeenIsLogged(w.nodes[o], w.made, x);
  }

  /** Clocks of operations are bounded like clocks of nodes. */
  lemma OpClockBounded(w: World, y: Id, n: Id)
    requires LogsOk(w) && MadeOk(w) && Bounded(w) && y in w.made && n in w.nodes
    ensures At(w.made[y].op.clock.entries, n) <= At(w.nodes[n].clock.entries, n)
  {
    var o := w.made[y].op.originNode;
    SeenIsLogged(w.nodes[o], w.made, y);
    assert At(w.made[y].op.clock.entries, n) <= At(w.nodes[o].clock.entries, n);
  }

  lemma IdsAppend(ops: seq<Operation>, op: Operation)
    ensures Ids(ops + [op]) == Ids(ops) + {op.opId}
  {
    assert forall x :: x in ops + [op] <==> x in ops || x == op;
  }

  lemma AppendKeepsLogOk(n: Node, n': Node, made: History, made': History, op: Operation)
    requires LogOk(n, made) && Extends(made, made')
    requires n'.log == n.log + [op] && n'.seen == n.seen + {op.opId} && op.opId !in n.seen
    requires op.opId in made' && Copy(made'[op.opId].op, op) && OwnClock(n'.clock)
    requires Leq(n.clock.entries, n'.clock.entries) && Leq(op.clock.entries, n'.clock.entries)
    ensures LogOk(n', made')
  {
    IdsAppend(n.log, op);
    forall i | 0 <= i < |n'.log|
      ensures n'.log[i].opId in made' && Copy(made'[n'.log[i].opId].op, n'.log[i])
      ensures Leq(n'.log[i].clock.entries, n'.clock.entries)
    {
      if i < |n.log| {
        LeqTransitive(n.log[i].clock.entries, n.clock.entries, n'.clock.entries);
      }
    }
    forall i, j | 0 <= i < j < |n'.log|
      ensures n'.log[i].opId != n'.log[j].opId
    {
      assert n.log[i] in n.log;
    }
  }

  lemma SameLogKeepsLogOk(n: Node, n': Node, made: History, made': History)
    requires LogOk(n, made) && Extends(made, made')
    requires n'.log == n.log && n'.seen == n.seen && Leq(n.clock.entries, n'.clock.entries)
    requires OwnClock(n.clock) ==> OwnClock(n'.clock)
    ensures LogOk(n', made')
  {
    forall i | 0 <= i < |n.log|
      ensures Leq(n.log[i].clock.entries, n'.clock.entries)
    {
      LeqTransitive(n.log[i].clock.entries, n.clock.entries, n'.clock.entries);
    }
  }

  lemma LeqReflexive(a: Entries)
    ensures Leq(a, a)
  {
  }

  // ---- parts common to all steps ----

  lemma OtherLogsOk(w: World, w': World, n: Id)
    requires LogsOk(w) && OneNodeChanges(w, w', n) && Extends(w.made, w'.made)
    requires LogOk(w'.nodes[n], w'.made)
    ensures LogsOk(w')
  {
    hide LogOk, Extends;
    forall m | m in w.nodes && m != n
      ensures LogOk(w'.nodes[m], w'.made)
    {
      LeqReflexive(w.nodes[m].clock.entries);
      SameLogKeepsLogOk(w.nodes[m], w'.nodes[m], w.made, w'.made);
    }
  }

  lemma BoundedAfter(w: World, w': World, n: Id)
    requires Bounded(w) && OneNodeChanges(w, w', n)
    requires forall k | k in w.nodes && k != n ::
               At(w'.nodes[n].clock.entries, k) <= At(w.nodes[k].clock.entries, k)
    requires At(w.nodes[n].clock.entries, n) <= At(w'.nodes[n].clock.entries, n)
    ensures Bounded(w')
  {
    hide At;
    forall m, k | m in w.nodes && k in w.nodes
      ensures At(w'.nodes[m].clock.entries, k) <= At(w'.nodes[k].clock.entries, k)
    {
      assert At(w.nodes[m].clock.entries, k) <= At(w.nodes[k].clock.entries, k);
    }
  }

  lemma TickedBounded(w: World, w': World, n: Id)
    requires Bounded(w) && OneNodeChanges(w, w', n) && w.nodes[n].id == n
    requires w'.nodes[n].clock == Ticked(w.nodes[n]).clock
    ensures Bounded(w')
  {
    forall k | k in w.nodes && k != n
      ensures At(w'.nodes[n].clock.entries, k) <= At(w.nodes[k].clock.entries, k)
    {
      TickedAt(w.nodes[n], k);
      assert At(w.nodes[n].clock.entries, k) <= At(w.nodes[k].clock.entries, k);
    }
    TickedAt(w.nodes[n], n);
    BoundedAfter(w, w', n);
  }

  /** What the origin's new clock reaches, it holds or has in its past. */
  lemma TickedPast(w: World, n: Id, x: Id)
    requires LogsOk(w) && MadeOk(w) && PastOk(w) && n in w.nodes && x in w.made
    requires Covers(Ticked(w.nodes[n]).clock.entries, w.made[x].op)
    ensures InPast(w.made, w.nodes[n].seen, x)
  {
    hide LogOk, Ticked, Precedes;
    TickedAt(w.nodes[n], w.made[x].op.originNode);
    if w.made[x].op.originNode == n {
      assert x in w.nodes[n].seen;
    }
  }

  // ---- creating an operation ----

  lemma CreateKeepsLogs(w: World, w': World, n: Id, op: Operation)
    requires LogsOk(w) && Creates(w, w', n, op)
    ensures LogsOk(w')
  {
    TickedLeq(w.nodes[n]);
    LeqReflexive(op.clock.entries);
    assert op.opId !in w.nodes[n].seen by {
      if op.opId in w.nodes[n].seen { SeenIsLogged(w.nodes[n], w.made, op.opId); }
    }
    hide LogOk, Ticked, Leq;
    AppendKeepsLogOk(w.nodes[n], w'.nodes[n], w.made, w'.made, op);
    OtherLogsOk(w, w', n);
  }

  /** Everything already made stays below the new own tick. */
  lemma NewTickIsNew(w: World, w': World, n: Id, op: Operation, y: Id)
    requires LogsOk(w) && MadeOk(w) && Bounded(w) && Creates(w, w', n, op)
    ensures y in w.made ==> !Covers(w.made[y].op.clock.entries, op)
    ensures y in w.nodes ==> !Covers(w.nodes[y].clock.entries, op)
    ensures y in w.made && w.made[y].op.originNode == n ==> y in w.nodes[n].seen && Own(w.made[y].op) < Own(op)
    ensures Own(op) >= 1
  {
    hide LogOk;
    TickedAt(w.nodes[n], n);
    if y in w.made {
      OpClockBounded(w, y, n);
      OwnBelowOrigin(w, y);
    }
    if y in w.nodes {
      assert At(w.nodes[y].clock.entries, n) <= At(w.nodes[n].clock.entries, n);
    }
  }

  lemma CreateKeepsKnown(w: World, w': World, n: Id, op: Operation, k: Id)
    requires Creates(w, w', n, op) && Own(op) >= 1 && k in w'.made
    requires k in w.made ==> KnownOp(w, k)
    ensures KnownOp(w', k)
  {
    hide Own, Ticked, GoodOp;
    if k != op.opId {
      assert w'.made[k] == w.made[k];
    }
  }

  lemma AddTick(made: History, made': History, m: Made)
    requires TicksDistinct(made) && m.op.opId !in made && made' == made[m.op.opId := m]
    requires forall k | k in made && made[k].op.originNode == m.op.originNode :: Own(made[k].op) < Own(m.op)
    ensures TicksDistinct(made')
  {
    hide Own;
  }

  lemma CreateKeepsMade(w: World, w': World, n: Id, op: Operation)
    requires LogsOk(w) && MadeOk(w) && Bounded(w) && Creates(w, w', n, op)
    ensures MadeOk(w')
  {
    hide LogsOk, Bounded, Own, Ticked, GoodOp, TicksDistinct;
    NewTickIsNew(w, w', n, op, n);
    forall k | k in w'.made
      ensures KnownOp(w', k)
    {
      CreateKeepsKnown(w, w', n, op, k);
    }
    forall k | k in w.made && w.made[k].op.originNode == n
      ensures Own(w.made[k].op) < Own(op)
    {
      NewTickIsNew(w, w', n, op, k);
    }
    AddTick(w.made, w'.made, Made(op, w.nodes[n].seen));
  }

  lemma CreateKeepsDeps(w: World, w': World, n: Id, op: Operation)
    requires LogsOk(w) && MadeOk(w) && Bounded(w) && DepsOk(w) && Creates(w, w', n, op)
    ensures DepsOk(w')
  {
    TickedLeq(w.nodes[n]);
    hide LogOk, Ticked, Leq, Covers;
    forall x | x in w.nodes[n].seen
      ensures x in w.made && Leq(w.made[x].op.clock.entries, op.clock.entries) && !Covers(w.made[x].op.clock.entries, op)
    {
      SeenIsLogged(w.nodes[n], w.made, x);
      LeqTransitive(w.made[x].op.clock.entries, w.nodes[n].clock.entries, op.clock.entries);
      NewTickIsNew(w, w', n, op, x);
    }
  }

  lemma NewOperationPast(w: World, w': World, n: Id, op: Operation, x: Id)
    requires LogsOk(w) && MadeOk(w) && PastOk(w) && Creates(w, w', n, op)
    requires x in w.made && Covers(op.clock.entries, w.made[x].op)
    ensures Precedes(w'.made, x, op.opId)
  {
    hide LogOk, Covers, Precedes, Ticked;
    TickedPast(w, n, x);
    var z :| z in w.nodes[n].seen && (z == x || Precedes(w.made, x, z));
    if z == x {
      PrecedesEdge(w'.made, x, op.opId);
    } else {
      PrecedesGrows(w.made, w'.made, x, z);
      PrecedesStep(w'.made, x, z, op.opId);
    }
  }

  lemma CreateKeepsOpPast(w: World, w': World, n: Id, op: Operation, x: Id, y: Id)
    requires LogsOk(w) && MadeOk(w) && Bounded(w) && PastOk(w) && Creates(w, w', n, op)
    requires x in w'.made && y in w'.made && x != y && Covers(w'.made[y].op.clock.entries, w'.made[x].op)
    ensures Precedes(w'.made, x, y)
  {
    hide LogsOk, MadeOk, Bounded, PastOk, Covers, Precedes, Ticked, GoodOp;
    if y == op.opId {
      NewOperationPast(w, w', n, op, x);
    } else {
      NewTickIsNew(w, w', n, op, y);
      OldPast(w, w', n, op, x, y);
    }
  }

  lemma OldPast(w: World, w': World, n: Id, op: Operation, x: Id, y: Id)
    requires PastOk(w) && Creates(w, w', n, op)
    requires x in w.made && y in w.made && x != y && Covers(w.made[y].op.clock.entries, w.made[x].op)
    ensures Precedes(w'.made, x, y)
  {
    hide Covers, Precedes, InPast, Ticked, GoodOp;
    PrecedesGrows(w.made, w'.made, x, y);
  }

  lemma OldNodePast(w: World, w': World, n: Id, op: Operation, m: Id, x: Id)
    requires PastOk(w) && Creates(w, w', n, op)
    requires m in w.nodes && x in w.made && InPast(w.made, w.nodes[m].seen, x)
    ensures InPast(w'.made, w'.nodes[m].seen, x)
  {
    hide Covers, Precedes, InPast, Ticked, GoodOp;
    InPastGrows(w.made, w'.made, w.nodes[m].seen, w'.nodes[m].seen, x);
  }

  lemma CreateKeepsNodePast(w: World, w': World, n: Id, op: Operation, m: Id, x: Id)
    requires LogsOk(w) && MadeOk(w) && Bounded(w) && PastOk(w) && Creates(w, w', n, op)
    requires m in w'.nodes && x in w'.made && Covers(w'.nodes[m].clock.entries, w'.made[x].op)
    ensures InPast(w'.made, w'.nodes[m].seen, x)
  {
    hide LogsOk, MadeOk, Bounded, Covers, Precedes, InPast, Ticked, GoodOp;
    if x == op.opId {
      NewTickIsNew(w, w', n, op, m);
      HeldIsPast(w'.made, w'.nodes[n].seen, x, x);
    } else {
      if m == n { TickedPast(w, n, x); }
      OldNodePast(w, w', n, op, m, x);
    }
  }

  lemma CreateKeepsPast(w: World, w': World, n: Id, op: Operation)
    requires LogsOk(w) && MadeOk(w) && Bounded(w) && PastOk(w) && Creates(w, w', n, op)
    ensures PastOk(w')
  {
    hide LogsOk, MadeOk, Bounded, Creates, Covers, Precedes, InPast;
    forall x, y | x in w'.made && y in w'.made && Covers(w'.made[y].op.clock.entries, w'.made[x].op)
      ensures x == y || Precedes(w'.made, x, y)
    {
      if x != y { CreateKeepsOpPast(w, w', n, op, x, y); }
    }
    forall m, x | m in w'.nodes && x in w'.made && Covers(w'.nodes[m].clock.entries, w'.made[x].op)
      ensures InPast(w'.made, w'.nodes[m].seen, x)
    {
      CreateKeepsNodePast(w, w', n, op, m, x);
    }
  }

  lemma CreateKeepsClockInv(w: World, w': World, n: Id, op: Operation)
    requires ClockInv(w) && Creates(w, w', n, op)
    ensures ClockInv(w')
  {
    assert w.nodes[n].id == n;
    TickedBounded(w, w', n);
    hide LogsOk, MadeOk, Bounded, DepsOk, PastOk, Creates;
    CreateKeepsLogs(w, w', n, op);
    CreateKeepsMade(w, w', n, op);
    CreateKeepsDeps(w, w', n, op);
    CreateKeepsPast(w, w', n, op);
  }

  // ---- a tick that logs nothing ----

  lemma TickKeepsLogs(w: World, w': World, n: Id)
    requires LogsOk(w) && OnlyTicks(w, w', n)
    ensures LogsOk(w')
  {
    TickedLeq(w.nodes[n]);
    TickedOwn(w.nodes[n]);
    hide LogOk, Ticked, Leq;
    SameLogKeepsLogOk(w.nodes[n], w'.nodes[n], w.made, w'.made);
    OtherLogsOk(w, w', n);
  }

  lemma TickKeepsPast(w: World, w': World, n: Id)
    requires LogsOk(w) && MadeOk(w) && PastOk(w) && OnlyTicks(w, w', n)
    ensures PastOk(w')
  {
    hide LogsOk, MadeOk, Ticked, Covers, InPast, Precedes;
    forall m, x | m in w'.nodes && x in w'.made && Covers(w'.nodes[m].clock.entries, w'.made[x].op)
      ensures InPast(w'.made, w'.nodes[m].seen, x)
    {
      if m == n { TickedPast(w, n, x); }
    }
  }

  /** Holding more and making nothing new keeps what is known of operations. */
  lemma SameMadeOk(w: World, w': World, n: Id)
    requires MadeOk(w) && DepsOk(w) && OneNodeChanges(w, w', n) && w'.made == w.made
    requires w.nodes[n].seen <= w'.nodes[n].seen
    ensures MadeOk(w') && DepsOk(w')
  {
    hide GoodOp, Own, Leq, Covers;
  }

  lemma TickKeepsClockInv(w: World, w': World, n: Id)
    requires ClockInv(w) && OnlyTicks(w, w', n)
    ensures ClockInv(w')
  {
    assert w.nodes[n].id == n;
    TickedBounded(w, w', n);
    SameMadeOk(w, w', n);
    hide LogsOk, MadeOk, Bounded, DepsOk, PastOk, OnlyTicks;
    TickKeepsLogs(w, w', n);
    TickKeepsPast(w, w', n);
  }

  // ---- receiving an operation ----

  lemma ReceiveKeepsLogs(w: World, w': World, n: Id, op: Operation)
    requires LogsOk(w) && Receives(w, w', n, op)
    ensures LogsOk(w')
  {
    MergedIsLeastUpperBound(w.nodes[n].clock.entries, op.clock.entries, op.clock.entries);
    hide LogOk, Merged, Leq;
    AppendKeepsLogOk(w.nodes[n], w'.nodes[n], w.made, w'.made, op);
    OtherLogsOk(w, w', n);
  }

  lemma ReceiveKeepsBounded(w: World, w': World, n: Id, op: Operation)
    requires LogsOk(w) && MadeOk(w) && Bounded(w) && Receives(w, w', n, op)
    ensures Bounded(w')
  {
    forall k | k in w.nodes
      ensures At(w'.nodes[n].clock.entries, k) <= At(w.nodes[k].clock.entries, k)
      ensures At(w.nodes[n].clock.entries, k) <= At(w'.nodes[n].clock.entries, k)
    {
      OpClockBounded(w, op.opId, k);
      assert At(w.nodes[n].clock.entries, k) <= At(w.nodes[k].clock.entries, k);
      MergedAt(w.nodes[n].clock.entries, op.clock.entries, k);
    }
    hide LogsOk, MadeOk, Merged, At;
    BoundedAfter(w, w', n);
  }

  lemma MergedAt(a: Entries, b: Entries, k: Id)
    ensures At(Merged(a, b), k) == if At(a, k) >= At(b, k) then At(a, k) else At(b, k)
  {
  }

  lemma ReceiveKeepsPast(w: World, w': World, n: Id, op: Operation)
    requires PastOk(w) && Receives(w, w', n, op)
    ensures PastOk(w')
  {
    hide Merged, InPast, Precedes;
    var a, b := w.nodes[n].clock.entries, op.clock.entries;
    forall m, x | m in w'.nodes && x in w'.made && Covers(w'.nodes[m].clock.entries, w'.made[x].op)
      ensures InPast(w'.made, w'.nodes[m].seen, x)
    {
      MergedAt(a, b, w.made[x].op.originNode);
      if m == n && !Covers(a, w.made[x].op) {
        HeldIsPast(w.made, w'.nodes[n].seen, x, op.opId);
      } else {
        InPastGrows(w.made, w'.made, w.nodes[m].seen, w'.nodes[m].seen, x);
      }
    }
  }

  lemma HeldIsPast(made: History, seen: set<Id>, x: Id, z: Id)
    requires z in seen && (x == z || Precedes(made, x, z))
    ensures InPast(made, seen, x)
  {
  }

  lemma ReceiveKeepsClockInv(w: World, w': World, n: Id, op: Operation)
    requires ClockInv(w) && Receives(w, w', n, op)
    ensures ClockInv(w')
  {
    SameMadeOk(w, w', n);
    hide LogsOk, MadeOk, Bounded, DepsOk, PastOk, Receives;
    ReceiveKeepsLogs(w, w', n, op);
    ReceiveKeepsBounded(w, w', n, op);
    ReceiveKeepsPast(w, w', n, op);
  }

  // ---- every step, every run ----

  /** How a step shows in the logs and clocks. */
  ghost predicate StepShape(w: World, e: Event, w': World) {
    match e
    case PlaceAt(n, _, _, _, _, opId) => opId in w'.made && Creates(w, w', n, w'.made[opId].op)
    case CancelAt(n, orderId, opId, _) =>
      n in w.nodes &&
      if orderId !in w.nodes[n].book.orders then w' == w
      else if Cancellable(w.nodes[n].book, orderId) then opId in w'.made && Creates(w, w', n, w'.made[opId].op)
      else OnlyTicks(w, w', n)
    case MarketAt(n, _, _) => OnlyTicks(w, w', n)
    case ApplyAt(n, op) =>
      n in w.nodes && if op.opId in w.nodes[n].seen then w' == w else Receives(w, w', n, op)
  }

  predicate NamesOk(w: World) {
    && (forall n | n in w.nodes ::
          w.nodes[n].id == n && w.nodes[n].clock.nodeId == n && OwnClock(w.nodes[n].clock))
    && (forall k | k in w.made :: w.made[k].op.opId == k)
  }

  lemma PlaceShape(w: World, e: Event)
    requires NamesOk(w) && Enabled(w, e) && e.PlaceAt?
    ensures StepShape(w, e, Do(w, e))
  {
    hide Add;
  }

  lemma CancelShape(w: World, e: Event)
    requires NamesOk(w) && Enabled(w, e) && e.CancelAt?
    ensures StepShape(w, e, Do(w, e))
  {
    hide Cancel, Cancellable;
    if e.orderId !in w.nodes[e.n].book.orders {
      assert !Cancellable(w.nodes[e.n].book, e.orderId) by { UnknownNotCancellable(w.nodes[e.n].book, e.orderId); }
      assert w.nodes[e.n := w.nodes[e.n]] == w.nodes;
    }
  }

  lemma UnknownNotCancellable(b: Book, id: Id)
    requires id !in b.orders
    ensures !Cancellable(b, id)
  {
  }

  lemma MarketShape(w: World, e: Event)
    requires NamesOk(w) && Enabled(w, e) && e.MarketAt?
    ensures StepShape(w, e, Do(w, e))
  {
    hide Match, MatchFills;
  }

  /** What arrives is a copy of the operation as it was made. */
  lemma TransitIsCopy(w: World, op: Operation)
    requires LogsOk(w) && MadeOk(w) && InTransit(w, op)
    ensures op.opId in w.made && Copy(w.made[op.opId].op, op)
  {
    hide Leq, Arrived, Copy, OwnClock;
    var sent :| SomewhereLogged(w, sent) && op == Arrived(sent);
    var m :| m in w.nodes && sent in w.nodes[m].log;
    var i :| 0 <= i < |w.nodes[m].log| && w.nodes[m].log[i] == sent;
    assert LogOk(w.nodes[m], w.made) && w.nodes[m].log[i].opId in w.made;
    var original := w.made[sent.opId].op;
    assert KnownOp(w, sent.opId);
    ArrivedCopy(original, sent);
    CopyMeans(original, sent);
    CopyMeans(original, op);
  }

  lemma ApplyShape(w: World, e: Event)
    requires NamesOk(w) && Enabled(w, e) && e.ApplyAt?
    requires e.op.opId in w.made && Copy(w.made[e.op.opId].op, e.op)
    ensures StepShape(w, e, Do(w, e))
  {
    hide Merged, ApplyToBook, Copy, InTransit;
    if e.op.opId in w.nodes[e.n].seen {
      assert w.nodes[e.n := w.nodes[e.n]] == w.nodes;
    }
  }

  lemma NamesKnown(w: World)
    requires LogsOk(w) && MadeOk(w)
    ensures NamesOk(w)
  {
    hide LogOk, GoodOp;
    forall k | k in w.made
      ensures w.made[k].op.opId == k
    {
      assert KnownOp(w, k);
    }
    forall n | n in w.nodes
      ensures OwnClock(w.nodes[n].clock)
    {
      LogOwnClock(w.nodes[n], w.made);
    }
  }

  /** Every clock in a run contains its own node id. */
  lemma LogOwnClock(n: Node, made: History)
    requires LogOk(n, made)
    ensures OwnClock(n.clock)
  {
  }

  lemma TransitShape(w: World, e: Event)
    requires LogsOk(w) && MadeOk(w) && NamesOk(w) && Enabled(w, e) && e.ApplyAt?
    ensures StepShape(w, e, Do(w, e))
  {
    hide LogsOk, MadeOk, NamesOk, StepShape, InTransit;
    TransitIsCopy(w, e.op);
    ApplyShape(w, e);
  }

  lemma EveryStepHasShape(w: World, e: Event)
    requires ClockInv(w) && Enabled(w, e)
    ensures StepShape(w, e, Do(w, e))
  {
    NamesKnown(w);
    hide Do, Enabled, StepShape, ClockInv, NamesOk;
    match e
    case PlaceAt(_, _, _, _, _, _) => PlaceShape(w, e);
    case CancelAt(_, _, _, _) => CancelShape(w, e);
    case MarketAt(_, _, _) => MarketShape(w, e);
    case ApplyAt(_, _) => TransitShape(w, e);
  }

  lemma ShapeKeepsClockInv(w: World, e: Event, w': World)
    requires ClockInv(w) && StepShape(w, e, w')
    ensures ClockInv(w')
  {
    hide ClockInv, Creates, OnlyTicks, Receives, Cancellable;
    match e
    case PlaceAt(n, _, _, _, _, opId) =>
      CreateKeepsClockInv(w, w', n, w'.made[opId].op);
    case CancelAt(n, orderId, opId, _) =>
      if orderId in w.nodes[n].book.orders {
        if Cancellable(w.nodes[n].book, orderId) {
          CreateKeepsClockInv(w, w', n, w'.made[opId].op);
        } else {
          TickKeepsClockInv(w, w', n);
        }
      }
    case MarketAt(n, _, _) =>
      TickKeepsClockInv(w, w', n);
    case ApplyAt(n, op) =>
      if op.opId !in w.nodes[n].seen {
        ReceiveKeepsClockInv(w, w', n, op);
      }
  }

  lemma StepKeepsClockInv(w: World, e: Event)
    requires ClockInv(w) && Enabled(w, e)
    ensures ClockInv(Do(w, e))
  {
    hide ClockInv, Do, InTransit, OrderIdUnused, StepShape;
    EveryStepHasShape(w, e);
    ShapeKeepsClockInv(w, e, Do(w, e));
  }

  lemma StartKeepsClockInv(w: World)
    requires Start(w)
    ensures ClockInv(w)
  {
  }

  /** Over every run: log ids are distinct and are the seen set, clocks dominate every logged
      clock, own ticks of an origin are distinct, and clocks reach only the causal past. */
  lemma {:induction false} RunKeepsClockInv(ws: seq<World>, es: seq<Event>, i: nat)
    requires IsRun(ws, es) && i < |ws|
    ensures ClockInv(ws[i])
  {
    hide ClockInv, Do, Enabled, IsRun, Start;
    RunStep(ws, es, i);
    if i == 0 {
      StartKeepsClockInv(ws[0]);
    } else {
      RunKeepsClockInv(ws, es, i - 1);
      StepKeepsClockInv(ws[i - 1], es[i - 1]);
    }
  }

  lemma RunStep(ws: seq<World>, es: seq<Event>, i: nat)
    requires IsRun(ws, es) && i < |ws|
    ensures Start(ws[0]) && |ws| == |es| + 1
    ensures i > 0 ==> Enabled(ws[i - 1], es[i - 1]) && ws[i] == Do(ws[i - 1], es[i - 1])
  {
    hide Start, Do, InTransit, OrderIdUnused;
    if i > 0 {
      var k := i - 1;
      assert Enabled(ws[k], es[k]) && ws[k + 1] == Do(ws[k], es[k]);
    }
  }

  // ---- the vector clock theorem ----

  lemma {:induction false} PathRaisesClocks(w: World, p: seq<Id>, x: Id, y: Id)
    requires ClockInv(w) && Path(w.made, p, x, y)
    ensures x in w.made && y in w.made && Leq(w.made[x].op.clock.entries, w.made[y].op.clock.entries)
    ensures !Covers(w.made[x].op.clock.entries, w.made[y].op)
    decreases |p|
  {
    hide LogsOk, MadeOk, Bounded, PastOk, Leq, Covers;
    var last := |p| - 1;
    var z := p[last - 1];
    assert Edge(w.made, p[last - 1], p[last]);
    if |p| > 2 {
      var q := p[..last];
      PathRaisesClocks(w, q, x, z);
      CoversGrows(w.made[x].op, w.made[z].op, w.made[y].op);
    }
  }

  lemma CoversGrows(a: Operation, b: Operation, c: Operation)
    requires Leq(a.clock.entries, b.clock.entries) && Leq(b.clock.entries, c.clock.entries)
    requires !Covers(b.clock.entries, c)
    ensures Leq(a.clock.entries, c.clock.entries) && !Covers(a.clock.entries, c)
  {
    LeqTransitive(a.clock.entries, b.clock.entries, c.clock.entries);
    assert At(a.clock.entries, c.originNode) <= At(b.clock.entries, c.originNode);
  }

  /** For two distinct operations, happens-before of their clocks is exactly causal precedence. */
  lemma ClocksCharacteriseCausality(w: World, x: Id, y: Id)
    requires ClockInv(w) && x in w.made && y in w.made && x != y
    ensures Before(w.made[x].op.clock.entries, w.made[y].op.clock.entries) <==> Precedes(w.made, x, y)
  {
    var a, b := w.made[x].op, w.made[y].op;
    if Before(a.clock.entries, b.clock.entries) {
      assert At(a.clock.entries, a.originNode) <= At(b.clock.entries, a.originNode);
      assert Covers(b.clock.entries, a);
    }
    if Precedes(w.made, x, y) {
      var p :| Path(w.made, p, x, y);
      PathRaisesClocks(w, p, x, y);
      assert At(b.clock.entries, b.originNode) > At(a.clock.entries, b.originNode);
    }
  }

  /** In every run, with arbitrary loss, duplication and reordering, and although failed cancels
      and market orders tick without logging. */
  lemma VectorClockTheorem(ws: seq<World>, es: seq<Event>, i: nat, x: Id, y: Id)
    requires IsRun(ws, es) && i < |ws| && x in ws[i].made && y in ws[i].made && x != y
    ensures var made := ws[i].made;
            Before(made[x].op.clock.entries, made[y].op.clock.entries) <==> Precedes(made, x, y)
  {
    RunKeepsClockInv(ws, es, i);
    ClocksCharacteriseCausality(ws[i], x, y);
  }
}
