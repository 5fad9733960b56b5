/** Causal closure: when a clock summarises a log exactly, and which deliveries keep it so. */
module Closure {
  import opened Types
  import opened VectorClocks
  import opened BookSpec
  import opened CrdtSpec
  import opened Delivery
  import opened Replication

  /** Everything the clock reaches is held. */
  ghost predicate Known(made: History, c: Entries, held: set<Id>) {
    forall x | x in made && Covers(c, made[x].op) :: x in held
  }

  ghost predicate AllMade(made: History, ops: seq<Operation>) {
    forall i | 0 <= i < |ops| :: ops[i].opId in made && Copy(made[ops[i].opId].op, ops[i])
  }

  /** Applied one by one after held, the operations never run ahead of what they depend on. */
  ghost predicate Deliverable(made: History, ops: seq<Operation>, held: set<Id>) {
    AllMade(made, ops) && forall j | 0 <= j < |ops| :: InOrder(made, ops, held, j)
  }

  /** The j-th operation reaches nothing outside held and the operations up to itself. */
  ghost predicate InOrder(made: History, ops: seq<Operation>, held: set<Id>, j: nat)
    requires j < |ops|
  {
    Known(made, ops[j].clock.entries, Ids(ops[..j + 1]) + held)
  }

  ghost predicate NodeClosed(made: History, n: Node) {
    Known(made, n.clock.entries, n.seen) && Deliverable(made, n.log, {})
  }

  ghost predicate CausalInv(w: World) {
    ClockInv(w) && forall n | n in w.nodes :: NodeClosed(w.made, w.nodes[n])
  }

  // ---- small facts ----

  lemma IdsConcat(a: seq<Operation>, b: seq<Operation>)
    ensures Ids(a + b) == Ids(a) + Ids(b)
  {
    assert forall x :: x in a + b <==> x in a || x in b;
  }

  lemma KnownMore(made: History, c: Entries, held: set<Id>, held': set<Id>)
    requires Known(made, c, held) && held <= held'
    ensures Known(made, c, held')
  {
    hide Covers;
  }

  lemma KnownMerged(made: History, a: Entries, b: Entries, held: set<Id>)
    requires Known(made, a, held) && Known(made, b, held)
    ensures Known(made, Merged(a, b), held)
  {
    forall x | x in made && Covers(Merged(a, b), made[x].op)
      ensures x in held
    {
      MergedAt(a, b, made[x].op.originNode);
      assert Covers(a, made[x].op) || Covers(b, made[x].op);
    }
  }

  lemma InOrderMoves(made: History, ops: seq<Operation>, held: set<Id>, j: nat,
                     ops': seq<Operation>, held': set<Id>, j': nat)
    requires j < |ops| && j' < |ops'| && ops[j] == ops'[j'] && InOrder(made, ops, held, j)
    requires Ids(ops[..j + 1]) + held <= Ids(ops'[..j' + 1]) + held'
    ensures InOrder(made, ops', held', j')
  {
    KnownMore(made, ops[j].clock.entries, Ids(ops[..j + 1]) + held, Ids(ops'[..j' + 1]) + held');
  }

  lemma DeliverableMore(made: History, ops: seq<Operation>, held: set<Id>, held': set<Id>)
    requires Deliverable(made, ops, held) && held <= held'
    ensures Deliverable(made, ops, held')
  {
    hide InOrder, AllMade;
    forall j | 0 <= j < |ops|
      ensures InOrder(made, ops, held', j)
    {
      InOrderMoves(made, ops, held, j, ops, held', j);
    }
  }

  lemma DeliverablePrefix(made: History, ops: seq<Operation>, held: set<Id>, k: nat)
    requires Deliverable(made, ops, held) && k <= |ops|
    ensures Deliverable(made, ops[..k], held)
  {
    hide InOrder;
    forall j | 0 <= j < k
      ensures InOrder(made, ops[..k], held, j)
    {
      assert ops[..k][..j + 1] == ops[..j + 1];
      InOrderMoves(made, ops, held, j, ops[..k], held, j);
    }
  }

  /** After applying the first operation, the rest is still deliverable. */
  lemma DeliverableTail(made: History, ops: seq<Operation>, held: set<Id>)
    requires Deliverable(made, ops, held) && ops != []
    ensures Deliverable(made, ops[1..], held + {ops[0].opId})
  {
    hide InOrder;
    var rest, next := ops[1..], held + {ops[0].opId};
    forall j | 0 <= j < |rest|
      ensures rest[j].opId in made && Copy(made[rest[j].opId].op, rest[j])
    {
      assert rest[j] == ops[j + 1];
    }
    hide AllMade;
    forall j | 0 <= j < |rest|
      ensures InOrder(made, rest, next, j)
    {
      assert ops[..j + 1 + 1] == [ops[0]] + rest[..j + 1];
      IdsConcat([ops[0]], rest[..j + 1]);
      assert Ids([ops[0]]) == {ops[0].opId};
      InOrderMoves(made, ops, held, j + 1, rest, next, j);
    }
  }

  lemma DeliverableAppend(made: History, ops: seq<Operation>, op: Operation, held: set<Id>)
    requires Deliverable(made, ops, held) && op.opId in made && Copy(made[op.opId].op, op)
    requires Known(made, op.clock.entries, Ids(ops) + {op.opId} + held)
    ensures Deliverable(made, ops + [op], held)
  {
    hide InOrder, Known;
    var more := ops + [op];
    forall j | 0 <= j < |more|
      ensures InOrder(made, more, held, j)
    {
      if j < |ops| {
        assert more[..j + 1] == ops[..j + 1];
        InOrderMoves(made, ops, held, j, more, held, j);
      } else {
        LastInOrder(made, ops, op, held);
      }
    }
  }

  lemma LastInOrder(made: History, ops: seq<Operation>, op: Operation, held: set<Id>)
    requires Known(made, op.clock.entries, Ids(ops) + {op.opId} + held)
    ensures InOrder(made, ops + [op], held, |ops|)
  {
    hide Known;
    assert (ops + [op])[..|ops| + 1] == ops + [op];
    IdsAppend(ops, op);
  }

  lemma DeliverableHead(made: History, ops: seq<Operation>, held: set<Id>)
    requires Deliverable(made, ops, held) && ops != []
    ensures ops[0].opId in made && Copy(made[ops[0].opId].op, ops[0])
    ensures Known(made, ops[0].clock.entries, held + {ops[0].opId})
  {
    assert InOrder(made, ops, held, 0) && ops[..0 + 1] == [ops[0]];
    KnownMore(made, ops[0].clock.entries, Ids(ops[..0 + 1]) + held, held + {ops[0].opId});
  }

  // ---- later worlds ----

  /** Only growth happened in between, and operations made since lie beyond the earlier clocks. */
  ghost predicate Later(w: World, w': World) {
    && w'.nodes.Keys == w.nodes.Keys && Extends(w.made, w'.made)
    && (forall n | n in w.nodes ::
          && w.nodes[n].log <= w'.nodes[n].log
          && w.nodes[n].seen <= w'.nodes[n].seen && Leq(w.nodes[n].clock.entries, w'.nodes[n].clock.entries))
    && (forall x | x in w'.made && x !in w.made ::
          && w'.made[x].op.originNode in w.nodes
          && !Covers(w.nodes[w'.made[x].op.originNode].clock.entries, w'.made[x].op))
  }

  ghost predicate BoundedClock(w: World, c: Entries) {
    forall n | n in w.nodes :: At(c, n) <= At(w.nodes[n].clock.entries, n)
  }

  lemma LaterReflexive(w: World)
    ensures Later(w, w)
  {
  }

  lemma LaterTransitive(a: World, b: World, c: World)
    requires Later(a, b) && Later(b, c)
    ensures Later(a, c)
  {
    forall n | n in a.nodes
      ensures Leq(a.nodes[n].clock.entries, c.nodes[n].clock.entries)
    {
      LeqTransitive(a.nodes[n].clock.entries, b.nodes[n].clock.entries, c.nodes[n].clock.entries);
    }
    forall x | x in c.made && x !in a.made
      ensures c.made[x].op.originNode in a.nodes
      ensures !Covers(a.nodes[c.made[x].op.originNode].clock.entries, c.made[x].op)
    {
      var o := c.made[x].op.originNode;
      if x in b.made {
        assert c.made[x] == b.made[x];
      } else {
        assert At(a.nodes[o].clock.entries, o) <= At(b.nodes[o].clock.entries, o);
      }
    }
  }

  lemma BoundedLater(w: World, w': World, c: Entries)
    requires Later(w, w') && BoundedClock(w, c)
    ensures BoundedClock(w', c)
  {
    forall n | n in w.nodes
      ensures At(c, n) <= At(w'.nodes[n].clock.entries, n)
    {
      assert At(w.nodes[n].clock.entries, n) <= At(w'.nodes[n].clock.entries, n);
    }
  }

  /** Operations made later are out of reach of earlier clocks. */
  lemma KnownLater(w: World, w': World, c: Entries, held: set<Id>)
    requires Later(w, w') && BoundedClock(w, c) && Known(w.made, c, held)
    ensures Known(w'.made, c, held)
  {
    forall x | x in w'.made && Covers(c, w'.made[x].op)
      ensures x in held
    {
      if x !in w.made { MadeBeyond(w, w', c, x); }
    }
  }

  lemma MadeBeyond(w: World, w': World, c: Entries, x: Id)
    requires Later(w, w') && BoundedClock(w, c) && x in w'.made && x !in w.made
    ensures !Covers(c, w'.made[x].op)
  {
    var o := w'.made[x].op.originNode;
    assert At(c, o) <= At(w.nodes[o].clock.entries, o);
  }

  lemma DeliverableLater(w: World, w': World, ops: seq<Operation>, held: set<Id>)
    requires Later(w, w') && LogsOk(w) && MadeOk(w) && Bounded(w) && Deliverable(w.made, ops, held)
    ensures Deliverable(w'.made, ops, held)
  {
    hide Known, Later, LogsOk, MadeOk, Bounded;
    LaterExtends(w, w');
    forall j | 0 <= j < |ops|
      ensures ops[j].opId in w'.made && Copy(w'.made[ops[j].opId].op, ops[j])
      ensures InOrder(w'.made, ops, held, j)
    {
      assert ops[j].opId in w.made && InOrder(w.made, ops, held, j);
      MadeClockBounded(w, ops[j].opId);
      KnownLater(w, w', ops[j].clock.entries, Ids(ops[..j + 1]) + held);
    }
  }

  lemma LaterExtends(w: World, w': World)
    requires Later(w, w')
    ensures Extends(w.made, w'.made) && w'.nodes.Keys == w.nodes.Keys
    ensures forall n | n in w.nodes :: w.nodes[n].seen <= w'.nodes[n].seen && w.nodes[n].log <= w'.nodes[n].log
  {
  }

  lemma MadeClockBounded(w: World, y: Id)
    requires LogsOk(w) && MadeOk(w) && Bounded(w) && y in w.made
    ensures BoundedClock(w, w.made[y].op.clock.entries)
  {
    forall n | n in w.nodes
      ensures At(w.made[y].op.clock.entries, n) <= At(w.nodes[n].clock.entries, n)
    {
      OpClockBounded(w, y, n);
    }
  }

  lemma NodeClockBounded(w: World, n: Id)
    requires Bounded(w) && n in w.nodes
    ensures BoundedClock(w, w.nodes[n].clock.entries)
  {
  }

  // ---- steps are growth ----

  lemma CreateIsLater(w: World, w': World, n: Id, op: Operation)
    requires LogsOk(w) && MadeOk(w) && Bounded(w) && Creates(w, w', n, op)
    ensures Later(w, w')
  {
    hide LogsOk, MadeOk, Bounded, Ticked, Covers, Leq;
    NewTickIsNew(w, w', n, op, n);
    forall m | m in w.nodes
      ensures Leq(w.nodes[m].clock.entries, w'.nodes[m].clock.entries)
    {
      TickedLeq(w.nodes[n]);
      LeqReflexive(w.nodes[m].clock.entries);
    }
  }

  lemma TickIsLater(w: World, w': World, n: Id)
    requires OnlyTicks(w, w', n)
    ensures Later(w, w')
  {
    hide Ticked, Leq;
    forall m | m in w.nodes
      ensures Leq(w.nodes[m].clock.entries, w'.nodes[m].clock.entries)
    {
      TickedLeq(w.nodes[n]);
      LeqReflexive(w.nodes[m].clock.entries);
    }
  }

  lemma ReceiveIsLater(w: World, w': World, n: Id, op: Operation)
    requires Receives(w, w', n, op)
    ensures Later(w, w')
  {
    hide Merged, Leq;
    forall m | m in w.nodes
      ensures Leq(w.nodes[m].clock.entries, w'.nodes[m].clock.entries)
    {
      MergedIsLeastUpperBound(w.nodes[n].clock.entries, op.clock.entries, op.clock.entries);
      LeqReflexive(w.nodes[m].clock.entries);
    }
  }

  lemma ShapeIsLater(w: World, e: Event, w': World)
    requires LogsOk(w) && MadeOk(w) && Bounded(w) && StepShape(w, e, w')
    ensures Later(w, w')
  {
    hide LogsOk, MadeOk, Bounded, Creates, OnlyTicks, Receives, Cancellable, Later;
    LaterReflexive(w);
    match e
    case PlaceAt(n, _, _, _, _, opId) => CreateIsLater(w, w', n, w'.made[opId].op);
    case CancelAt(n, orderId, opId, _) =>
      if orderId in w.nodes[n].book.orders {
        if Cancellable(w.nodes[n].book, orderId) {
          CreateIsLater(w, w', n, w'.made[opId].op);
        } else {
          TickIsLater(w, w', n);
        }
      }
    case MarketAt(n, _, _) => TickIsLater(w, w', n);
    case ApplyAt(n, op) =>
      if op.opId !in w.nodes[n].seen {
        ReceiveIsLater(w, w', n, op);
      }
  }

  // ---- closure of the nodes ----

  /** Nodes that did not move stay closed. */
  lemma StillClosed(w: World, w': World, m: Id)
    requires ClockInv(w) && Later(w, w') && m in w.nodes && NodeClosed(w.made, w.nodes[m])
    ensures NodeClosed(w'.made, w.nodes[m])
  {
    hide LogsOk, MadeOk, Later, Known, Deliverable;
    NodeClockBounded(w, m);
    KnownLater(w, w', w.nodes[m].clock.entries, w.nodes[m].seen);
    DeliverableLater(w, w', w.nodes[m].log, {});
  }

  lemma OthersClosed(w: World, w': World, n: Id)
    requires CausalInv(w) && Later(w, w') && OneNodeChanges(w, w', n) && NodeClosed(w'.made, w'.nodes[n])
    ensures forall m | m in w'.nodes :: NodeClosed(w'.made, w'.nodes[m])
  {
    hide ClockInv, Later, NodeClosed;
    forall m | m in w'.nodes
      ensures NodeClosed(w'.made, w'.nodes[m])
    {
      if m != n { StillClosed(w, w', m); }
    }
  }

  /** The origin's ticked clock reaches only what it holds. */
  lemma TickedKnown(w: World, n: Id)
    requires LogsOk(w) && MadeOk(w) && n in w.nodes && Known(w.made, w.nodes[n].clock.entries, w.nodes[n].seen)
    ensures Known(w.made, Ticked(w.nodes[n]).clock.entries, w.nodes[n].seen)
  {
    hide LogOk, Ticked;
    forall x | x in w.made && Covers(Ticked(w.nodes[n]).clock.entries, w.made[x].op)
      ensures x in w.nodes[n].seen
    {
      assert KnownOp(w, x);
      TickedAt(w.nodes[n], w.made[x].op.originNode);
    }
  }

  lemma CreateKnown(w: World, w': World, n: Id, op: Operation)
    requires LogsOk(w) && MadeOk(w) && Creates(w, w', n, op)
    requires Known(w.made, w.nodes[n].clock.entries, w.nodes[n].seen)
    ensures Known(w'.made, op.clock.entries, w.nodes[n].seen + {op.opId})
  {
    TickedKnown(w, n);
    hide LogsOk, MadeOk, Ticked, Covers;
    forall x | x in w'.made && Covers(op.clock.entries, w'.made[x].op)
      ensures x in w.nodes[n].seen + {op.opId}
    {
      if x != op.opId {
        assert w'.made[x] == w.made[x];
      }
    }
  }

  lemma CreateKeepsClosed(w: World, w': World, n: Id, op: Operation)
    requires CausalInv(w) && Creates(w, w', n, op)
    ensures CausalInv(w')
  {
    hide ClockInv, NodeClosed, Deliverable, Known, LogsOk, MadeOk, Bounded, LogOk, Ticked, Later, Copy, OwnClock, GoodOp;
    ClosedParts(w, n);
    CreateIsLater(w, w', n, op);
    StillClosed(w, w', n);
    NodeClosedParts(w'.made, w.nodes[n]);
    CreateKnown(w, w', n, op);
    CreateKeepsClockInv(w, w', n, op);
    CopyReflexive(op);
    assert Ids(w.nodes[n].log) + {op.opId} + {} == w.nodes[n].seen + {op.opId};
    DeliverableAppend(w'.made, w.nodes[n].log, op, {});
    NodeClosedFrom(w'.made, w'.nodes[n]);
    OthersClosed(w, w', n);
  }

  lemma ClosedParts(w: World, n: Id)
    requires CausalInv(w) && n in w.nodes
    ensures ClockInv(w) && LogsOk(w) && MadeOk(w) && Bounded(w)
    ensures NodeClosed(w.made, w.nodes[n]) && LogOk(w.nodes[n], w.made) && w.nodes[n].seen == Ids(w.nodes[n].log)
    ensures Known(w.made, w.nodes[n].clock.entries, w.nodes[n].seen) && Deliverable(w.made, w.nodes[n].log, {})
  {
    hide Known, Deliverable, MadeOk, Bounded;
    assert NodeClosed(w.made, w.nodes[n]);
  }

  lemma NodeClosedParts(made: History, n: Node)
    requires NodeClosed(made, n)
    ensures Known(made, n.clock.entries, n.seen) && Deliverable(made, n.log, {})
  {
    hide Known, Deliverable;
  }

  lemma NodeClosedFrom(made: History, n: Node)
    requires Known(made, n.clock.entries, n.seen) && Deliverable(made, n.log, {})
    ensures NodeClosed(made, n)
  {
    hide Known, Deliverable;
  }

  lemma TickKeepsClosed(w: World, w': World, n: Id)
    requires CausalInv(w) && OnlyTicks(w, w', n)
    ensures CausalInv(w')
  {
    assert NodeClosed(w.made, w.nodes[n]);
    TickIsLater(w, w', n);
    TickedKnown(w, n);
    hide Deliverable, Known, LogsOk, MadeOk, Bounded, DepsOk, PastOk, Ticked, Later;
    TickKeepsClockInv(w, w', n);
    OthersClosed(w, w', n);
  }

  lemma ReceiveKeepsClosed(w: World, w': World, n: Id, op: Operation)
    requires CausalInv(w) && Receives(w, w', n, op)
    requires Known(w.made, op.clock.entries, w.nodes[n].seen + {op.opId})
    ensures CausalInv(w')
  {
    assert NodeClosed(w.made, w.nodes[n]) && LogOk(w.nodes[n], w.made);
    ReceiveIsLater(w, w', n, op);
    var held := w.nodes[n].seen + {op.opId};
    KnownMore(w.made, w.nodes[n].clock.entries, w.nodes[n].seen, held);
    KnownMerged(w.made, w.nodes[n].clock.entries, op.clock.entries, held);
    hide Deliverable, Known, LogsOk, MadeOk, Bounded, DepsOk, PastOk, Merged, Later;
    ReceiveKeepsClockInv(w, w', n, op);
    DeliverableAppend(w.made, w.nodes[n].log, op, {});
    OthersClosed(w, w', n);
  }

  /** What a step must not do: apply an operation whose causes are missing. */
  ghost predicate CausalStep(w: World, e: Event) {
    e.ApplyAt? && e.n in w.nodes ==> Known(w.made, e.op.clock.entries, w.nodes[e.n].seen + {e.op.opId})
  }

  lemma StepKeepsClosed(w: World, e: Event)
    requires CausalInv(w) && Enabled(w, e) && CausalStep(w, e)
    ensures CausalInv(Do(w, e)) && Later(w, Do(w, e))
  {
    hide LogsOk, MadeOk, Bounded, DepsOk, PastOk, NodeClosed, Later, Do, InTransit, OrderIdUnused, Creates,
      OnlyTicks, Receives, Cancellable, Known;
    EveryStepHasShape(w, e);
    var w' := Do(w, e);
    ShapeIsLater(w, e, w');
    match e
    case PlaceAt(n, _, _, _, _, opId) => CreateKeepsClosed(w, w', n, w'.made[opId].op);
    case CancelAt(n, orderId, opId, _) =>
      if orderId in w.nodes[n].book.orders {
        if Cancellable(w.nodes[n].book, orderId) {
          CreateKeepsClosed(w, w', n, w'.made[opId].op);
        } else {
          TickKeepsClosed(w, w', n);
        }
      }
    case MarketAt(n, _, _) => TickKeepsClosed(w, w', n);
    case ApplyAt(n, op) =>
      if op.opId !in w.nodes[n].seen {
        ReceiveKeepsClosed(w, w', n, op);
      }
  }

  /** In a causally closed world a node's clock summarises its log exactly: it covers an
      operation if and only if the node holds it. */
  lemma ClockSummarisesLog(w: World, n: Id, x: Id)
    requires CausalInv(w) && n in w.nodes && x in w.made
    ensures Covers(w.nodes[n].clock.entries, w.made[x].op) <==> x in w.nodes[n].seen
  {
    assert NodeClosed(w.made, w.nodes[n]);
    if x in w.nodes[n].seen {
      SeenIsLogged(w.nodes[n], w.made, x);
      assert At(w.made[x].op.clock.entries, w.made[x].op.originNode)
          <= At(w.nodes[n].clock.entries, w.made[x].op.originNode);
    }
  }

  // ---- anti-entropy answers ----

  lemma NotMissingIsLeq(op: Operation, peer: Entries)
    requires !Missing(op, peer)
    ensures Leq(op.clock.entries, peer)
  {
    if op.clock.entries == peer {
      LeqReflexive(peer);
    }
  }

  lemma {:induction false} SinceKeeps(log: seq<Operation>, peer: Entries, op: Operation)
    requires op in log && Missing(op, peer)
    ensures op in Since(log, peer)
  {
    var k := |log| - 1;
    if op != log[k] {
      assert op in log[..k];
      SinceKeeps(log[..k], peer, op);
    }
  }

  lemma {:induction false} SinceFromLog(log: seq<Operation>, peer: Entries)
    ensures forall op | op in Since(log, peer) :: op in log && Missing(op, peer)
  {
    if log != [] {
      SinceFromLog(log[..|log| - 1], peer);
    }
  }

  /** Whatever the answer leaves out, the requester holds. */
  lemma AnswerComplete(made: History, log: seq<Operation>, peer: Entries, held: set<Id>)
    requires AllMade(made, log) && Known(made, peer, held)
    ensures Ids(log) <= Ids(Since(log, peer)) + held
  {
    forall x | x in Ids(log)
      ensures x in Ids(Since(log, peer)) + held
    {
      var op :| op in log && op.opId == x;
      if Missing(op, peer) {
        SinceKeeps(log, peer, op);
      } else {
        NotMissingIsLeq(op, peer);
        var i :| 0 <= i < |log| && log[i] == op;
        assert log[i].opId in made;
        assert At(op.clock.entries, op.originNode) <= At(peer, op.originNode);
      }
    }
  }

  /** An answer out of a causally ordered log to a closed requester is deliverable to it. */
  lemma {:induction false} AnswerDeliverable(made: History, log: seq<Operation>, peer: Entries, held: set<Id>)
    requires Deliverable(made, log, {}) && Known(made, peer, held)
    ensures Deliverable(made, Since(log, peer), held)
    decreases |log|
  {
    hide Known, Missing;
    if log != [] {
      var k := |log| - 1;
      var init, last := log[..k], log[k];
      DeliverablePrefix(made, log, {}, k);
      AnswerDeliverable(made, init, peer, held);
      if Missing(last, peer) {
        assert InOrder(made, log, {}, k);
        LastKnown(made, log, peer, held);
        DeliverableAppend(made, Since(init, peer), last, held);
      } else {
        assert Since(log, peer) == Since(init, peer) + [] == Since(init, peer);
      }
    }
  }

  lemma LastKnown(made: History, log: seq<Operation>, peer: Entries, held: set<Id>)
    requires log != [] && AllMade(made, log) && Known(made, peer, held)
    requires InOrder(made, log, {}, |log| - 1)
    ensures var k := |log| - 1;
            Known(made, log[k].clock.entries, Ids(Since(log[..k], peer)) + {log[k].opId} + held)
  {
    var k := |log| - 1;
    var init, last := log[..k], log[k];
    assert log[..k + 1] == log && log == init + [last];
    IdsAppend(init, last);
    AnswerComplete(made, init, peer, held);
    KnownMore(made, last.clock.entries, Ids(log[..k + 1]) + {}, Ids(Since(init, peer)) + {last.opId} + held);
  }

  // ---- applying a batch ----

  /** Some operation's clock covers op. */
  ghost predicate Reaches(ops: seq<Operation>, op: Operation) {
    exists y :: y in ops && Covers(y.clock.entries, op)
  }

  lemma {:induction false} ApplyAllFacts(made: History, n: Node, ops: seq<Operation>)
    requires LogOk(n, made) && AllMade(made, ops)
    ensures var after := ApplyAll(n, ops);
            && LogOk(after, made) && after.id == n.id && after.clock.nodeId == n.clock.nodeId
            && after.seen == n.seen + Ids(ops)
            && forall op :: Covers(after.clock.entries, op) <==>
                            Covers(n.clock.entries, op) || Reaches(ops, op)
    decreases ops
  {
    hide Covers, Apply, LogOk, Ids;
    if ops == [] {
      NoIds();
    } else {
      var next := Apply(n, ops[0]);
      OneApply(made, n, ops[0]);
      SuffixMade(made, ops, 1);
      hide AllMade;
      ApplyAllFacts(made, next, ops[1..]);
      IdsFirst(ops);
      assert forall y :: y in ops <==> y == ops[0] || y in ops[1..];
    }
  }

  lemma OneApply(made: History, n: Node, op: Operation)
    requires LogOk(n, made) && op.opId in made && Copy(made[op.opId].op, op)
    ensures var next := Apply(n, op);
            && LogOk(next, made) && next.id == n.id && next.clock.nodeId == n.clock.nodeId
            && next.seen == n.seen + {op.opId}
            && forall x :: Covers(next.clock.entries, x) <==> Covers(n.clock.entries, x) || Covers(op.clock.entries, x)
  {
    var next := Apply(n, op);
    if op.opId in n.seen {
      SeenIsLogged(n, made, op.opId);
      forall x
        ensures Covers(op.clock.entries, x) ==> Covers(n.clock.entries, x)
      {
        assert At(op.clock.entries, x.originNode) <= At(n.clock.entries, x.originNode);
      }
    } else {
      MergedIsLeastUpperBound(n.clock.entries, op.clock.entries, op.clock.entries);
      AppendKeepsLogOk(n, next, made, made, op);
      forall x
        ensures Covers(next.clock.entries, x) <==> Covers(n.clock.entries, x) || Covers(op.clock.entries, x)
      {
        MergedAt(n.clock.entries, op.clock.entries, x.originNode);
      }
    }
  }

  /** Of the log but its last k operations, the receiver holds all that those k reach. */
  predicate HoldsDropped(log: seq<Operation>, k: nat, held: set<Id>)
    requires k <= |log|
  {
    forall i, j | 0 <= i < |log| - k <= j < |log| :: Covers(log[j].clock.entries, log[i]) ==> log[i].opId in held
  }

  lemma DroppedMeans(log: seq<Operation>, k: nat, held: set<Id>)
    requires k <= |log|
    ensures HoldsDropped(log, k, held) <==>
            forall x, y | x in log[..|log| - k] && y in log[|log| - k..] && Covers(y.clock.entries, x) :: x.opId in held
  {
    hide Covers;
    var cut := |log| - k;
    if HoldsDropped(log, k, held) {
      forall x, y | x in log[..cut] && y in log[cut..] && Covers(y.clock.entries, x)
        ensures x.opId in held
      {
        var i :| 0 <= i < cut && log[i] == x;
        var j :| 0 <= j < k && log[cut..][j] == y;
        assert log[cut + j] == y;
      }
    } else {
      var i, j :| 0 <= i < cut <= j < |log| && Covers(log[j].clock.entries, log[i]) && log[i].opId !in held;
      assert log[..cut][i] in log[..cut] && log[cut..][j - cut] in log[cut..];
    }
  }

  ghost predicate DistinctOps(log: seq<Operation>) {
    forall i, j | 0 <= i < j < |log| :: log[i].opId != log[j].opId
  }

  /** A push sent in world w and delivered in a later world w', whatever the receiver learnt in
      between: applying its last PUSH_LIMIT operations keeps the receiver closed exactly when every
      dropped operation that a pushed one reaches is held by the receiver by then. */
  lemma PushKeepsClosureExactly(w: World, w': World, s: Id, r: Id)
    requires CausalInv(w) && CausalInv(w') && Later(w, w') && s in w.nodes && r in w'.nodes
    ensures var log := w.nodes[s].log;
            var after := ApplyAll(w'.nodes[r], ArrivedAll(PushOps(log)));
            Known(w'.made, after.clock.entries, after.seen)
            <==> HoldsDropped(log, |PushOps(log)|, w'.nodes[r].seen)
  {
    hide CausalInv, Later, LogOk, NodeClosed, Known, Covers, ApplyAll, HoldsDropped, ArrivedAll, Deliverable, AllMade,
      MadeOk, DistinctOps, Reaches, Ids;
    var log := w.nodes[s].log;
    var pushed := PushOps(log);
    var cut := |log| - |pushed|;
    var dropped := log[..cut];
    var held := w'.nodes[r].seen;
    PushSetting(w, w', s, r, cut);
    DroppedMeans(log, |pushed|, held);
    ArrivedReach(w', pushed);
    ArrivedIds(pushed);
    ApplyAllFacts(w'.made, w'.nodes[r], ArrivedAll(pushed));
    var before := w'.nodes[r].clock.entries;
    var after := ApplyAll(w'.nodes[r], ArrivedAll(pushed));
    if HoldsDropped(log, |pushed|, held) {
      PushedReachKnown(w'.made, log, pushed, dropped, held, before, after.clock.entries);
    }
    if Known(w'.made, after.clock.entries, after.seen) {
      DroppedAreHeld(w'.made, log, pushed, held, after.clock.entries);
    }
  }

  lemma DroppedAreHeld(made: History, log: seq<Operation>, pushed: seq<Operation>, held: set<Id>, after: Entries)
    requires Deliverable(made, log, {}) && DistinctOps(log) && |pushed| <= |log| && pushed == log[|log| - |pushed|..]
    requires forall op | Reaches(pushed, op) :: Covers(after, op)
    requires Known(made, after, held + Ids(pushed))
    ensures HoldsDropped(log, |pushed|, held)
  {
    hide Known, Covers, HoldsDropped, DistinctOps, Ids, InOrder, AllMade;
    var cut := |log| - |pushed|;
    DroppedMeans(log, |pushed|, held);
    forall x, y | x in log[..cut] && y in pushed && Covers(y.clock.entries, x)
      ensures x.opId in held
    {
      assert Reaches(pushed, x);
      DroppedNotPushed(log, made, cut, x);
      CopyCovers(after, made[x.opId].op, x);
      KnownAt(made, after, held + Ids(pushed), x.opId);
    }
  }

  /** Operations keep everything but their price on the way. */
  lemma ArrivedMade(w: World, ops: seq<Operation>)
    requires MadeOk(w) && AllMade(w.made, ops)
    ensures AllMade(w.made, ArrivedAll(ops)) && |ArrivedAll(ops)| == |ops|
    ensures forall i | 0 <= i < |ops| :: ArrivedAll(ops)[i].clock == ops[i].clock
  {
    ArrivedAllAt(ops);
    hide ArrivedAll, Arrived, Copy, OwnClock;
    forall i | 0 <= i < |ops|
      ensures Copy(w.made[ops[i].opId].op, ArrivedAll(ops)[i]) && ArrivedAll(ops)[i].clock == ops[i].clock
    {
      var x := ops[i].opId;
      assert KnownOp(w, x);
      ArrivedCopy(w.made[x].op, ops[i]);
      CopyMeans(w.made[x].op, ops[i]);
      CopyMeans(w.made[x].op, ArrivedAll(ops)[i]);
    }
  }

  lemma ArrivedReach(w: World, ops: seq<Operation>)
    requires MadeOk(w) && AllMade(w.made, ops)
    ensures AllMade(w.made, ArrivedAll(ops))
    ensures forall op :: Reaches(ArrivedAll(ops), op) <==> Reaches(ops, op)
  {
    hide Covers, ArrivedAll, MadeOk, AllMade;
    ArrivedMade(w, ops);
    var more := ArrivedAll(ops);
    forall op
      ensures Reaches(more, op) <==> Reaches(ops, op)
    {
      if Reaches(more, op) {
        var y :| y in more && Covers(y.clock.entries, op);
        var i :| 0 <= i < |more| && more[i] == y;
        assert ops[i] in ops;
      }
      if Reaches(ops, op) {
        var y :| y in ops && Covers(y.clock.entries, op);
        var i :| 0 <= i < |ops| && ops[i] == y;
        assert more[i] in more;
      }
    }
  }

  /** What is deliverable stays so as it arrives. */
  lemma ArrivedDeliverable(w: World, ops: seq<Operation>, held: set<Id>)
    requires MadeOk(w) && Deliverable(w.made, ops, held)
    ensures Deliverable(w.made, ArrivedAll(ops), held)
  {
    hide MadeOk, AllMade, InOrder, ArrivedAll;
    ArrivedMade(w, ops);
    var more := ArrivedAll(ops);
    forall j | 0 <= j < |more|
      ensures InOrder(w.made, more, held, j)
    {
      ArrivedPrefix(ops, j + 1);
      ArrivedIds(ops[..j + 1]);
      SameOrder(w.made, ops, more, held, j);
    }
  }

  lemma SameOrder(made: History, ops: seq<Operation>, more: seq<Operation>, held: set<Id>, j: nat)
    requires j < |ops| == |more| && InOrder(made, ops, held, j)
    requires ops[j].clock == more[j].clock && Ids(more[..j + 1]) == Ids(ops[..j + 1])
    ensures InOrder(made, more, held, j)
  {
    hide Known, Ids;
  }

  /** The end of a causally ordered log is deliverable to whoever holds what it reaches before. */
  lemma SuffixDeliverable(made: History, log: seq<Operation>, k: nat, held: set<Id>)
    requires Deliverable(made, log, {}) && k <= |log| && HoldsDropped(log, k, held)
    ensures Deliverable(made, log[|log| - k..], held)
  {
    hide InOrder, HoldsDropped;
    var cut := |log| - k;
    SuffixMade(made, log, cut);
    hide AllMade;
    forall j | 0 <= j < k
      ensures InOrder(made, log[cut..], held, j)
    {
      SuffixInOrder(made, log, k, held, j);
    }
  }

  lemma CopyCovers(c: Entries, a: Operation, b: Operation)
    requires Copy(a, b)
    ensures Covers(c, a) <==> Covers(c, b)
  {
  }

  lemma SuffixInOrder(made: History, log: seq<Operation>, k: nat, held: set<Id>, j: nat)
    requires AllMade(made, log) && k <= |log| && HoldsDropped(log, k, held)
    requires j < k && InOrder(made, log, {}, |log| - k + j)
    ensures InOrder(made, log[|log| - k..], held, j)
  {
    hide Ids, Covers;
    var cut := |log| - k;
    var op := log[cut + j];
    forall x | x in made && Covers(op.clock.entries, made[x].op)
      ensures x in Ids(log[cut..][..j + 1]) + held
    {
      var i := IdAt(log[..cut + j + 1], x);
      assert log[i].opId in made;
      CopyCovers(op.clock.entries, made[x].op, log[i]);
      if i >= cut {
        IdOf(log[cut..][..j + 1], i - cut);
      }
    }
  }

  lemma IdAt(ops: seq<Operation>, x: Id) returns (i: nat)
    requires x in Ids(ops)
    ensures i < |ops| && ops[i].opId == x
  {
    var y :| y in ops && y.opId == x;
    i :| 0 <= i < |ops| && ops[i] == y;
  }

  lemma IdOf(ops: seq<Operation>, i: nat)
    requires i < |ops|
    ensures ops[i].opId in Ids(ops)
  {
  }

  lemma KnownAt(made: History, c: Entries, held: set<Id>, x: Id)
    requires Known(made, c, held) && x in made && Covers(c, made[x].op)
    ensures x in held
  {
  }

  lemma PushSetting(w: World, w': World, s: Id, r: Id, cut: nat)
    requires CausalInv(w) && CausalInv(w') && Later(w, w') && s in w.nodes && r in w'.nodes
    requires cut == |w.nodes[s].log| - |PushOps(w.nodes[s].log)|
    ensures var log := w.nodes[s].log;
            && log == log[..cut] + PushOps(log) && PushOps(log) == log[cut..]
            && AllMade(w'.made, PushOps(log)) && Deliverable(w'.made, log, {}) && DistinctOps(log)
            && LogOk(w'.nodes[r], w'.made) && MadeOk(w')
            && Known(w'.made, w'.nodes[r].clock.entries, w'.nodes[r].seen)
  {
    hide LogOk, Known, InOrder, AllMade, Later, MadeOk, Bounded;
    assert NodeClosed(w.made, w.nodes[s]) && NodeClosed(w'.made, w'.nodes[r]);
    LogDistinct(w.nodes[s], w.made);
    DeliverableLater(w, w', w.nodes[s].log, {});
    SuffixMade(w'.made, w.nodes[s].log, cut);
  }

  lemma LogDistinct(n: Node, made: History)
    requires LogOk(n, made)
    ensures DistinctOps(n.log)
  {
  }

  lemma SuffixMade(made: History, log: seq<Operation>, cut: nat)
    requires AllMade(made, log) && cut <= |log|
    ensures AllMade(made, log[cut..])
  {
    forall i | 0 <= i < |log[cut..]|
      ensures log[cut..][i].opId in made && Copy(made[log[cut..][i].opId].op, log[cut..][i])
    {
      assert log[cut..][i] == log[cut + i];
    }
  }

  lemma DroppedNotPushed(log: seq<Operation>, made: History, cut: nat, x: Operation)
    requires AllMade(made, log) && DistinctOps(log) && cut <= |log| && x in log[..cut]
    ensures x.opId in made && Copy(made[x.opId].op, x) && x.opId !in Ids(log[cut..])
  {
    hide Copy;
    var i :| 0 <= i < cut && log[i] == x;
    assert log[i].opId in made;
    forall y | y in log[cut..]
      ensures y.opId != x.opId
    {
      var j :| 0 <= j < |log[cut..]| && log[cut..][j] == y;
      assert log[cut + j] == y;
    }
  }

  lemma PushedReachKnown(made: History, log: seq<Operation>, pushed: seq<Operation>, dropped: seq<Operation>,
                         held: set<Id>, before: Entries, after: Entries)
    requires Deliverable(made, log, {}) && log == dropped + pushed && Known(made, before, held)
    requires forall op :: Covers(after, op) <==> Covers(before, op) || Reaches(pushed, op)
    requires forall x, y | x in dropped && y in pushed && Covers(y.clock.entries, x) :: x.opId in held
    ensures Known(made, after, held + Ids(pushed))
  {
    hide Deliverable, Covers, Ids;
    forall x | x in made && Covers(after, made[x].op)
      ensures x in held + Ids(pushed)
    {
      if !Covers(before, made[x].op) {
        var y :| y in pushed && Covers(y.clock.entries, made[x].op);
        PushedReaches(made, log, pushed, dropped, held, y, x);
      }
    }
  }

  lemma PushedReaches(made: History, log: seq<Operation>, pushed: seq<Operation>, dropped: seq<Operation>,
                      held: set<Id>, y: Operation, x: Id)
    requires Deliverable(made, log, {}) && log == dropped + pushed && y in pushed
    requires x in made && Covers(y.clock.entries, made[x].op)
    requires forall x, y | x in dropped && y in pushed && Covers(y.clock.entries, x) :: x.opId in held
    ensures x in held + Ids(pushed)
  {
    hide InOrder, Covers, Copy;
    ReachedIsLogged(made, log, y, x);
    var i := IdAt(log, x);
    CopyCovers(y.clock.entries, made[x].op, log[i]);
    assert log[i] in dropped || log[i] in pushed;
  }

  /** Whatever a logged operation reaches is in the same log. */
  lemma ReachedIsLogged(made: History, log: seq<Operation>, y: Operation, x: Id)
    requires Deliverable(made, log, {}) && y in log && x in made && Covers(y.clock.entries, made[x].op)
    ensures x in Ids(log)
  {
    var j :| 0 <= j < |log| && log[j] == y;
    assert InOrder(made, log, {}, j);
    assert x in Ids(log[..j + 1]);
    var op :| op in log[..j + 1] && op.opId == x;
    assert op in log;
  }
}
