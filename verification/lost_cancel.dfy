/** A cancel that overtakes the add of its order, and what becomes of it. */
module LostCancels {
  import opened Types
  import VectorClocks
  import opened BookSpec
  import opened Matching
  import opened BookViews
  import opened CrdtSpec
  import opened PriceWire
  import opened Delivery
  import opened Replication
  import opened CarriedPrices
  import opened Closure
  import opened Convergence
  import opened Counterexamples

  /** A node places an order and then cancels it. */
  predicate Scenario(a: Id, place: Event, cancel: Event) {
    && place.PlaceAt? && cancel.CancelAt? && place.n == cancel.n == a
    && place.quantity > 0 && cancel.orderId == place.orderId && cancel.opId != place.opId
  }

  /** Node a has placed and cancelled an order. */
  lemma PlaceThenCancel(a: Id, b: Id, place: Event, cancel: Event)
    returns (w1: World, w2: World, add: Operation, remove: Operation)
    requires a != b && Scenario(a, place, cancel)
    ensures var w0 := StartWorld(a, b);
            && Enabled(w0, place) && w1 == Do(w0, place)
            && Enabled(w1, cancel) && w2 == Do(w1, cancel)
    ensures w2.made.Keys == {place.opId, cancel.opId} && w2.nodes.Keys == {a, b} && w2.nodes[b] == NewNode(b)
    ensures w2.nodes[a].seen == {place.opId, cancel.opId} && w2.nodes[a].log == [add, remove] && w2.fills == map[]
    ensures Cancels(remove, place.orderId) && remove.opId == cancel.opId
    ensures Adds(add, place.orderId) && add.opId == place.opId && add.order.Live()
  {
    hide Enqueue, Removed;
    w1 := Do(StartWorld(a, b), place);
    assert Cancellable(w1.nodes[a].book, place.orderId);
    w2 := Do(w1, cancel);
    add, remove := w2.nodes[a].log[0], w2.nodes[a].log[1];
  }

  /** Another node receives the second operation of the log, then the first. */
  lemma ReceiveReversed(w2: World, a: Id, b: Id, p: Operation, q: Operation) returns (w3: World, w4: World)
    requires a in w2.nodes && b in w2.nodes && a != b && p in w2.nodes[a].log && q in w2.nodes[a].log
    ensures Enabled(w2, ApplyAt(b, Arrived(q))) && w3 == Do(w2, ApplyAt(b, Arrived(q)))
    ensures Enabled(w3, ApplyAt(b, Arrived(p))) && w4 == Do(w3, ApplyAt(b, Arrived(p)))
    ensures w4.made == w2.made && w4.fills == w2.fills
    ensures w4.nodes == w2.nodes[b := Apply(Apply(w2.nodes[b], Arrived(q)), Arrived(p))]
  {
    hide Apply, Arrived, LocalAdd, LocalCancel, LocalMarket;
    assert SomewhereLogged(w2, q) && SomewhereLogged(w2, p);
    w3 := Do(w2, ApplyAt(b, Arrived(q)));
    assert p in w3.nodes[a].log && SomewhereLogged(w3, p);
    w4 := Do(w3, ApplyAt(b, Arrived(p)));
  }

  lemma CancelThenAdd(b: Id, cancel: Operation, add: Operation)
    requires cancel.kind.CancelOrder? && add.kind.AddOrder? && add.opId != cancel.opId
    ensures var n := Apply(Apply(NewNode(b), cancel), add);
            n.seen == {cancel.opId, add.opId} && n.log == [cancel, add]
  {
    hide ApplyToBook, VectorClocks.Merged;
  }

  lemma StartRun(w: World)
    requires Start(w)
    ensures IsRun([w], [])
  {
    hide Start;
  }

  lemma ExtendRun(ws: seq<World>, es: seq<Event>, e: Event) returns (ws': seq<World>, es': seq<Event>)
    requires IsRun(ws, es) && Enabled(ws[|es|], e)
    ensures IsRun(ws', es') && |ws'| == |es'| + 1 && ws'[|es'|] == Do(ws[|es|], e)
  {
    hide Start, InTransit, OrderIdUnused, Do;
    ws', es' := ws + [Do(ws[|es|], e)], es + [e];
    forall i | 0 <= i < |es'|
      ensures Enabled(ws'[i], es'[i]) && ws'[i + 1] == Do(ws'[i], es'[i])
    {
      if i < |es| {
        assert ws'[i] == ws[i] && ws'[i + 1] == ws[i + 1] && es'[i] == es[i];
      }
    }
  }

  /** At a the order's cancel came after its add; at b every cancel there is came before, and b has
      taken nothing of the order. */
  ghost predicate Lost(w: World, a: Id, b: Id, id: Id) {
    && a in w.nodes && b in w.nodes
    && Effective(w.nodes[a].log, id)
    && Added(w.nodes[b].log, id) && !Effective(w.nodes[b].log, id) && FilledAmount(FillsOf(w, b), id) == 0
    && forall x | x in w.made && Cancels(w.made[x].op, id) :: x in w.nodes[b].seen
  }

  /** A cancel that arrives before its add is lost: whatever order is placed and cancelled at one
      node, if another node receives the two operations in reverse, both hold the same operations,
      yet the order stays open at one of them. */
  lemma LostCancel(a: Id, b: Id, place: Event, cancel: Event) returns (ws: seq<World>, es: seq<Event>)
    requires a != b && Scenario(a, place, cancel)
    ensures IsRun(ws, es) && |ws| == |es| + 1
    ensures var w := ws[|es|];
            && w.nodes.Keys == {a, b} && w.nodes[a].seen == w.nodes[b].seen == w.made.Keys
            && Lost(w, a, b, place.orderId)
            && place.orderId !in LiveOrders(w.nodes[a].book) && place.orderId in LiveOrders(w.nodes[b].book)
  {
    hide Do, InTransit, OrderIdUnused, Apply, Arrived, LiveOrders, IsRun, Start, StartWorld, NewNode, Lost, Adds, Cancels;
    var w1, w2, add, remove := PlaceThenCancel(a, b, place, cancel);
    var w3, w4 := ReceiveReversed(w2, a, b, add, remove);
    ArrivedKeeps(add);
    ArrivedKeeps(remove);
    CancelThenAddIsLost(w4, a, b, add, remove, place.orderId);
    ws, es := FourSteps(StartWorld(a, b), w1, w2, w3, w4, place, cancel,
                        ApplyAt(b, Arrived(remove)), ApplyAt(b, Arrived(add)));
    RunKeepsBookInv(ws, es, |es|);
    LostShows(w4, a, b, place.orderId);
  }

  lemma CancelThenAddIsLost(w: World, a: Id, b: Id, add: Operation, remove: Operation, id: Id)
    requires a in w.nodes && b in w.nodes && w.fills == map[] && w.made.Keys == {add.opId, remove.opId}
    requires Adds(add, id) && Cancels(remove, id) && add.opId != remove.opId
    requires w.nodes[a].log == [add, remove]
    requires w.nodes[b] == Apply(Apply(NewNode(b), Arrived(remove)), Arrived(add))
    ensures Lost(w, a, b, id) && w.nodes[b].seen == w.made.Keys
  {
    hide Apply, Arrived, NewNode;
    ArrivedKeeps(add);
    ArrivedKeeps(remove);
    CancelThenAdd(b, Arrived(remove), Arrived(add));
    assert Adds(w.nodes[a].log[0], id) && Cancels(w.nodes[a].log[1], id);
    assert Adds(w.nodes[b].log[1], id);
  }

  lemma FourSteps(w0: World, w1: World, w2: World, w3: World, w4: World, e0: Event, e1: Event, e2: Event, e3: Event)
    returns (ws: seq<World>, es: seq<Event>)
    requires Start(w0) && Enabled(w0, e0) && w1 == Do(w0, e0) && Enabled(w1, e1) && w2 == Do(w1, e1)
    requires Enabled(w2, e2) && w3 == Do(w2, e2) && Enabled(w3, e3) && w4 == Do(w3, e3)
    ensures IsRun(ws, es) && |ws| == |es| + 1 && ws[|es|] == w4
  {
    hide Start, InTransit, OrderIdUnused, Do, IsRun;
    StartRun(w0);
    ws, es := ExtendRun([w0], [], e0);
    ws, es := ExtendRun(ws, es, e1);
    ws, es := ExtendRun(ws, es, e2);
    ws, es := ExtendRun(ws, es, e3);
  }

  // ---- nothing delivered later repairs it ----

  /** The step does not cancel the order anew and is no market order at b. */
  predicate LeavesAlone(e: Event, b: Id, id: Id) {
    !(e.CancelAt? && e.orderId == id) && !(e.MarketAt? && e.n == b)
  }

  lemma LostShows(w: World, a: Id, b: Id, id: Id)
    requires BookInv(w) && Lost(w, a, b, id)
    ensures id !in LiveOrders(w.nodes[a].book) && id in LiveOrders(w.nodes[b].book)
  {
    hide BookInv, OrderMatches, Effective, FilledAmount, FillsOf, Added, LiveOrders;
    EffectiveIsAdded(w.nodes[a].log, id);
    AddedShows(w, a, id);
    AddedShows(w, b, id);
  }

  /** An added order is open where no cancel was effective and nothing is filled, and not open
      where a cancel was. */
  lemma AddedShows(w: World, n: Id, id: Id)
    requires BookInv(w) && n in w.nodes && Added(w.nodes[n].log, id)
    ensures Effective(w.nodes[n].log, id) ==> id !in LiveOrders(w.nodes[n].book)
    ensures !Effective(w.nodes[n].log, id) && FilledAmount(FillsOf(w, n), id) == 0 ==> id in LiveOrders(w.nodes[n].book)
  {
    hide BookInv, Effective, FilledAmount, FillsOf;
    var log := w.nodes[n].log;
    var i :| 0 <= i < |log| && Adds(log[i], id);
    OrderAt(w, n, log[i]);
  }

  lemma OnlyItsCancels(w: World, e: Event, x: Id, id: Id)
    requires Enabled(w, e) && x in Do(w, e).made && Cancels(Do(w, e).made[x].op, id)
    requires !(e.CancelAt? && e.orderId == id)
    ensures x in w.made && w.made[x] == Do(w, e).made[x]
  {
    hide InTransit, OrderIdUnused, Add, Withdraw, Apply, LocalMarket, MatchFills;
  }

  /** A log stays, or grows by an operation that its node did not hold. */
  lemma LogStep(w: World, e: Event, n: Id)
    requires ClockInv(w) && Enabled(w, e) && n in w.nodes
    ensures var w' := Do(w, e);
            && n in w'.nodes && w.nodes[n].seen <= w'.nodes[n].seen
            && (w'.nodes[n].log == w.nodes[n].log
                || exists op :: w'.nodes[n].log == w.nodes[n].log + [op] && op.opId !in w.nodes[n].seen
                     && op.opId in w'.made && Copy(w'.made[op.opId].op, op))
  {
    hide ClockInv, Do, InTransit, OrderIdUnused, StepShape;
    EveryStepHasShape(w, e);
    NodeLogOk(w, n);
    ShapeLog(w, e, Do(w, e), n);
  }

  lemma ShapeLog(w: World, e: Event, w': World, n: Id)
    requires StepShape(w, e, w') && n in w.nodes && LogOk(w.nodes[n], w.made)
    ensures n in w'.nodes && w.nodes[n].seen <= w'.nodes[n].seen
    ensures w'.nodes[n].log == w.nodes[n].log
            || exists op :: w'.nodes[n].log == w.nodes[n].log + [op] && op.opId !in w.nodes[n].seen
                 && op.opId in w'.made && Copy(w'.made[op.opId].op, op)
  {
    hide LogOk, GoodOp, Ticked, VectorClocks.Merged, Cancellable, Copy;
    HeldIsMade(w.nodes[n], w.made);
    if e.PlaceAt? || e.CancelAt? {
      if e.opId in w'.made { CopyReflexive(w'.made[e.opId].op); }
    }
  }

  lemma HeldIsMade(n: Node, made: History)
    requires LogOk(n, made)
    ensures n.seen <= made.Keys
  {
    hide VectorClocks.Leq, Copy, OwnClock;
    forall x | x in n.seen
      ensures x in made
    {
      SeenIsLogged(n, made, x);
    }
  }

  lemma FillsStay(w: World, e: Event, b: Id)
    requires Enabled(w, e) && !(e.MarketAt? && e.n == b)
    ensures FillsOf(Do(w, e), b) == FillsOf(w, b)
  {
    hide InTransit, OrderIdUnused, LocalAdd, LocalCancel, Cancellable, Apply, LocalMarket, MatchFills;
  }

  lemma LostStays(w: World, e: Event, a: Id, b: Id, id: Id)
    requires ClockInv(w) && Enabled(w, e) && Lost(w, a, b, id) && LeavesAlone(e, b, id)
    ensures Lost(Do(w, e), a, b, id)
  {
    hide ClockInv, Do, InTransit, OrderIdUnused, Effective, Added, FilledAmount, FillsOf, Copy, Cancels, Adds;
    var w' := Do(w, e);
    FillsStay(w, e, b);
    LogStep(w, e, a);
    LogStep(w, e, b);
    forall x | x in w'.made && Cancels(w'.made[x].op, id)
      ensures x in w.made && w.made[x] == w'.made[x]
    {
      OnlyItsCancels(w, e, x, id);
    }
    if w'.nodes[a].log != w.nodes[a].log {
      var op :| w'.nodes[a].log == w.nodes[a].log + [op];
      EffectiveAppend(w.nodes[a].log, op, id);
    }
    if w'.nodes[b].log != w.nodes[b].log {
      var op :| w'.nodes[b].log == w.nodes[b].log + [op] && op.opId !in w.nodes[b].seen
             && op.opId in w'.made && Copy(w'.made[op.opId].op, op);
      CopyAdds(w'.made[op.opId].op, op, id);
      EffectiveAppend(w.nodes[b].log, op, id);
      AddedAppend(w.nodes[b].log, op, id);
    }
  }

  /** Once a cancel is lost, the order stays closed at a and open at b whatever is delivered, made
      or matched later, until some node cancels the order anew or b itself matches a market order. */
  lemma {:induction false} LostForGood(ws: seq<World>, es: seq<Event>, k: nat, i: nat, a: Id, b: Id, id: Id)
    requires IsRun(ws, es) && k <= i < |ws| && Lost(ws[k], a, b, id)
    requires forall j | k <= j < i && j < |es| :: LeavesAlone(es[j], b, id)
    ensures Lost(ws[i], a, b, id)
    ensures id !in LiveOrders(ws[i].nodes[a].book) && id in LiveOrders(ws[i].nodes[b].book)
  {
    hide IsRun, Start, Do, InTransit, OrderIdUnused, Lost, LeavesAlone, ClockInv, BookInv, LiveOrders;
    if i > k {
      LostForGood(ws, es, k, i - 1, a, b, id);
      RunStep(ws, es, i);
      RunKeepsClockInv(ws, es, i - 1);
      LostStays(ws[i - 1], es[i - 1], a, b, id);
    }
    LostWf(ws[i], a, b, id);
    RunKeepsBookInv(ws, es, i);
    LostShows(ws[i], a, b, id);
  }

  lemma LostWf(w: World, a: Id, b: Id, id: Id)
    ensures Lost(w, a, b, id) ==> a in w.nodes && b in w.nodes
  {
  }
}
