/** The order book as a value: two sorted lists of FIFO levels next to the map of all orders.
    A queue entry, a pointer into the order map in the implementation, is the key it points at. */
module BookSpec {
  import opened Types

  type Orders = map<Id, Order>

  datatype Level = Level(price: real, total: int, queue: seq<Id>)

  datatype Book = Book(bids: seq<Level>, asks: seq<Level>, orders: Orders) {
    function Levels(s: Side): seq<Level> {
      if s.Buy? then bids else asks
    }

    function WithLevels(s: Side, ls: seq<Level>): Book {
      if s.Buy? then this.(bids := ls) else this.(asks := ls)
    }
  }

  const EMPTY_BOOK := Book([], [], map[])

  /** Bids are sorted from the highest price, asks from the lowest. */
  predicate Better(s: Side, p: real, q: real) {
    if s.Buy? then p > q else p < q
  }

  // ---- adding ----

  /** Position of the first level that is not strictly better than price. */
  function LowerBound(s: Side, ls: seq<Level>, price: real): (i: nat)
    ensures i <= |ls|
    ensures forall j | 0 <= j < i :: Better(s, ls[j].price, price)
    ensures i < |ls| ==> !Better(s, ls[i].price, price)
  {
    if ls == [] || !Better(s, ls[0].price, price) then 0
    else
      var k := LowerBound(s, ls[1..], price);
      assert forall j | 1 <= j < k + 1 :: ls[j] == ls[1..][j - 1];
      k + 1
  }

  /** Appends an order to the level at its price, creating the level when there is none. */
  function Enqueue(s: Side, ls: seq<Level>, price: real, quantity: int, id: Id): seq<Level> {
    var i := LowerBound(s, ls, price);
    if i < |ls| && ls[i].price == price then
      ls[i := Level(price, ls[i].total + quantity, ls[i].queue + [id])]
    else
      ls[..i] + [Level(price, quantity, [id])] + ls[i..]
  }

  function Add(b: Book, o: Order): Book {
    b.WithLevels(o.side, Enqueue(o.side, b.Levels(o.side), o.price, o.remaining, o.orderId))
     .(orders := b.orders[o.orderId := o])
  }

  /** A replicated order is added once. */
  function InsertReplicated(b: Book, o: Order): Book {
    if o.orderId in b.orders then b else Add(b, o)
  }

  // ---- the index rebuilt for new states of the orders ----

  function Rem(orders: Orders, id: Id): int {
    if id in orders then orders[id].remaining else 0
  }

  function QueueSum(orders: Orders, q: seq<Id>): int {
    if q == [] then 0 else Rem(orders, q[0]) + QueueSum(orders, q[1..])
  }

  function LiveQueue(orders: Orders, q: seq<Id>): seq<Id> {
    if q == [] then []
    else (if q[0] in orders && orders[q[0]].Live() then [q[0]] else []) + LiveQueue(orders, q[1..])
  }

  function RefreshLevel(orders: Orders, l: Level): Level {
    var q := LiveQueue(orders, l.queue);
    Level(l.price, QueueSum(orders, q), q)
  }

  function RefreshOne(orders: Orders, l: Level): seq<Level> {
    var r := RefreshLevel(orders, l);
    if r.queue == [] then [] else [r]
  }

  /** The levels without the orders that are no longer live, with totals recomputed and empty
      levels gone. */
  function Refresh(orders: Orders, ls: seq<Level>): seq<Level> {
    if ls == [] then [] else RefreshOne(orders, ls[0]) + Refresh(orders, ls[1..])
  }

  function Rebuild(b: Book, orders: Orders): Book {
    Book(Refresh(orders, b.bids), Refresh(orders, b.asks), orders)
  }

  // ---- cancelling ----

  predicate Cancellable(b: Book, id: Id) {
    id in b.orders && !b.orders[id].isCancelled
  }

  function Cancel(b: Book, id: Id): Book {
    if Cancellable(b, id) then
      Rebuild(b, b.orders[id := b.orders[id].(isCancelled := true)])
    else
      b
  }

  // ---- cancelling, in any book ----

  /** Position of the level at a price, or the number of levels. */
  function LevelAt(ls: seq<Level>, price: real): (i: nat)
    ensures i <= |ls| && (i < |ls| ==> ls[i].price == price)
    ensures forall k | 0 <= k < i :: ls[k].price != price
  {
    if ls == [] || ls[0].price == price then 0 else LevelAt(ls[1..], price) + 1
  }

  /** Position of an order in a queue, or its length. */
  function PlaceIn(q: seq<Id>, id: Id): (j: nat)
    ensures j <= |q| && (j < |q| ==> q[j] == id)
    ensures forall k | 0 <= k < j :: q[k] != id
  {
    if q == [] || q[0] == id then 0 else PlaceIn(q[1..], id) + 1
  }

  function Without(orders: Orders, l: Level, id: Id): Level {
    var j := PlaceIn(l.queue, id);
    if j == |l.queue| then l else Level(l.price, l.total - Rem(orders, id), l.queue[..j] + l.queue[j + 1..])
  }

  /** The levels after the two searches for an order at a price, consistent or not. */
  function Removed(orders: Orders, ls: seq<Level>, price: real, id: Id): seq<Level> {
    var i := LevelAt(ls, price);
    if i == |ls| then ls
    else
      var l := Without(orders, ls[i], id);
      ls[..i] + (if l.queue == [] then [] else [l]) + ls[i + 1..]
  }

  function Withdraw(b: Book, id: Id): Book {
    if Cancellable(b, id) then
      var o := b.orders[id];
      var orders := b.orders[id := o.(isCancelled := true)];
      b.WithLevels(o.side, Removed(orders, b.Levels(o.side), o.price, id)).(orders := orders)
    else
      b
  }

  // ---- matching ----

  function Min(x: int, y: int): int {
    if x <= y then x else y
  }

  function Max(x: int, y: int): int {
    if x >= y then x else y
  }

  /** All queues of a side, best level first: the order in which matching consumes it. */
  function Flat(ls: seq<Level>): seq<Id> {
    if ls == [] then [] else ls[0].queue + Flat(ls[1..])
  }

  /** The pure greedy walk: take as much as possible from the front until nothing is left. */
  function Walk(orders: Orders, q: seq<Id>, quantity: int): seq<Fill> {
    if q == [] || quantity <= 0 || q[0] !in orders then []
    else
      var f := Min(quantity, orders[q[0]].remaining);
      [Fill(q[0], orders[q[0]].price, f)] + Walk(orders, q[1..], quantity - f)
  }

  function FilledAmount(fills: seq<Fill>, id: Id): int {
    if fills == [] then 0
    else (if fills[0].orderId == id then fills[0].quantity else 0) + FilledAmount(fills[1..], id)
  }

  function FilledTotal(fills: seq<Fill>): int {
    if fills == [] then 0 else fills[0].quantity + FilledTotal(fills[1..])
  }

  /** An order after losing amount; an exhausted order is closed. */
  function Settle(o: Order, amount: int): Order {
    if amount == 0 then o
    else o.(remaining := o.remaining - amount, isCancelled := o.isCancelled || o.remaining == amount)
  }

  function AfterFills(orders: Orders, fills: seq<Fill>): Orders {
    map id | id in orders :: Settle(orders[id], FilledAmount(fills, id))
  }

  function MatchFills(b: Book, aggressor: Side, quantity: int): seq<Fill> {
    Walk(b.orders, Flat(b.Levels(aggressor.Opposite())), quantity)
  }

  function Match(b: Book, aggressor: Side, quantity: int): Book {
    Rebuild(b, AfterFills(b.orders, MatchFills(b, aggressor, quantity)))
  }

  // ---- the index invariant ----

  ghost predicate Sorted(s: Side, ls: seq<Level>) {
    forall i, j | 0 <= i < j < |ls| :: Better(s, ls[i].price, ls[j].price)
  }

  ghost predicate Distinct(q: seq<Id>) {
    forall i, j | 0 <= i < j < |q| :: q[i] != q[j]
  }

  /** Live and resting on side s at price p. */
  predicate Resting(orders: Orders, s: Side, p: real, id: Id) {
    id in orders && orders[id].Live() && orders[id].side == s && orders[id].price == p
  }

  ghost predicate LevelOk(s: Side, l: Level, orders: Orders) {
    && l.queue != [] && Distinct(l.queue)
    && l.total == QueueSum(orders, l.queue)
    && forall id | id in l.queue :: Resting(orders, s, l.price, id)
  }

  ghost predicate Queued(ls: seq<Level>, id: Id) {
    exists i :: 0 <= i < |ls| && id in ls[i].queue
  }

  ghost predicate SideOk(s: Side, ls: seq<Level>, orders: Orders) {
    && Sorted(s, ls)
    && (forall i | 0 <= i < |ls| :: LevelOk(s, ls[i], orders))
    && (forall id | id in orders && orders[id].Live() && orders[id].side == s :: Queued(ls, id))
  }

  /** Level queues hold exactly the live orders, each once, under its own side and price; cached
      totals are right; no level is empty; level prices are strictly ordered. */
  ghost predicate Inv(b: Book) {
    && SideOk(Buy, b.bids, b.orders)
    && SideOk(Sell, b.asks, b.orders)
    && forall id | id in b.orders ::
         b.orders[id].orderId == id && (b.orders[id].isCancelled || b.orders[id].remaining > 0)
  }

  // ---- views ----

  datatype Quote = Quote(price: real, total: int)

  function Quotes(ls: seq<Level>): (qs: seq<Quote>)
    ensures |qs| == |ls|
    ensures forall i | 0 <= i < |ls| :: qs[i] == Quote(ls[i].price, ls[i].total)
  {
    if ls == [] then [] else [Quote(ls[0].price, ls[0].total)] + Quotes(ls[1..])
  }

  function Best(ls: seq<Level>): Option<Level> {
    if ls == [] then None else Some(ls[0])
  }

  function LiveOrders(b: Book): Orders {
    map id | id in b.orders && b.orders[id].Live() :: b.orders[id]
  }
}

/** Facts about the index, the totals and the rebuild. */
module BookIndex {
  import opened Types
  import opened BookSpec

  lemma {:induction false} SumConcat(orders: Orders, a: seq<Id>, b: seq<Id>)
    ensures QueueSum(orders, a + b) == QueueSum(orders, a) + QueueSum(orders, b)
  {
    if a == [] {
      assert a + b == b;
    } else {
      assert (a + b)[1..] == a[1..] + b;
      SumConcat(orders, a[1..], b);
    }
  }

  lemma {:induction false} SumFrame(o1: Orders, o2: Orders, q: seq<Id>)
    requires forall id | id in q :: Rem(o1, id) == Rem(o2, id)
    ensures QueueSum(o1, q) == QueueSum(o2, q)
  {
    if q != [] {
      SumFrame(o1, o2, q[1..]);
    }
  }

  lemma {:induction false} LiveQueueConcat(orders: Orders, a: seq<Id>, b: seq<Id>)
    ensures LiveQueue(orders, a + b) == LiveQueue(orders, a) + LiveQueue(orders, b)
  {
    if a == [] {
      assert a + b == b;
    } else {
      assert (a + b)[1..] == a[1..] + b;
      LiveQueueConcat(orders, a[1..], b);
    }
  }

  lemma {:induction false} LiveQueueMembers(orders: Orders, q: seq<Id>)
    ensures forall id :: id in LiveQueue(orders, q) <==> id in q && id in orders && orders[id].Live()
    ensures Distinct(q) ==> Distinct(LiveQueue(orders, q))
  {
    if q != [] {
      LiveQueueMembers(orders, q[1..]);
      if Distinct(q) {
        assert q[0] !in q[1..];
      }
    }
  }

  lemma {:induction false} LiveQueueAll(orders: Orders, q: seq<Id>)
    requires forall id | id in q :: id in orders && orders[id].Live()
    ensures LiveQueue(orders, q) == q
  {
    if q != [] {
      LiveQueueAll(orders, q[1..]);
    }
  }

  lemma {:induction false} LiveQueueTwice(o1: Orders, o2: Orders, q: seq<Id>)
    requires forall id | id in o2 && o2[id].Live() :: id in o1 && o1[id].Live()
    ensures LiveQueue(o2, LiveQueue(o1, q)) == LiveQueue(o2, q)
  {
    if q != [] {
      LiveQueueTwice(o1, o2, q[1..]);
      LiveQueueConcat(o2, if q[0] in o1 && o1[q[0]].Live() then [q[0]] else [], LiveQueue(o1, q[1..]));
    }
  }

  lemma {:induction false} RefreshConcat(orders: Orders, a: seq<Level>, b: seq<Level>)
    ensures Refresh(orders, a + b) == Refresh(orders, a) + Refresh(orders, b)
  {
    if a == [] {
      assert a + b == b;
    } else {
      assert (a + b)[1..] == a[1..] + b;
      RefreshConcat(orders, a[1..], b);
    }
  }

  /** Rebuilding twice is rebuilding for the later states. */
  lemma {:induction false} RefreshTwice(o1: Orders, o2: Orders, ls: seq<Level>)
    requires forall id | id in o2 && o2[id].Live() :: id in o1 && o1[id].Live()
    ensures Refresh(o2, Refresh(o1, ls)) == Refresh(o2, ls)
  {
    if ls != [] {
      RefreshTwice(o1, o2, ls[1..]);
      RefreshConcat(o2, RefreshOne(o1, ls[0]), Refresh(o1, ls[1..]));
      LiveQueueTwice(o1, o2, ls[0].queue);
      assert Refresh(o2, RefreshOne(o1, ls[0])) == RefreshOne(o2, ls[0]);
    }
  }

  /** Nothing to do when every queued order is live and unchanged. */
  lemma {:induction false} RefreshSame(s: Side, o1: Orders, o2: Orders, ls: seq<Level>)
    requires forall i | 0 <= i < |ls| :: LevelOk(s, ls[i], o1)
    requires forall i, id | 0 <= i < |ls| && id in ls[i].queue :: id in o1 && id in o2 && o2[id] == o1[id]
    ensures Refresh(o2, ls) == ls
  {
    if ls != [] {
      assert LevelOk(s, ls[0], o1);
      LiveQueueAll(o2, ls[0].queue);
      SumFrame(o1, o2, ls[0].queue);
      forall i | 0 <= i < |ls[1..]|
        ensures LevelOk(s, ls[1..][i], o1)
      {
        assert ls[1..][i] == ls[i + 1];
      }
      RefreshSame(s, o1, o2, ls[1..]);
    }
  }

  /** Orders may only be reduced or closed. */
  ghost predicate Shrinks(a: Orders, b: Orders) {
    && a.Keys == b.Keys
    && forall id | id in a ::
         && b[id].(remaining := a[id].remaining, isCancelled := a[id].isCancelled) == a[id]
         && (b[id].Live() ==> a[id].Live())
         && (b[id].isCancelled || b[id].remaining > 0)
  }

  lemma {:induction false} RefreshMembers(orders: Orders, ls: seq<Level>)
    ensures forall l | l in Refresh(orders, ls) ::
              l.queue != [] && exists i :: 0 <= i < |ls| && l == RefreshLevel(orders, ls[i])
    ensures forall i | 0 <= i < |ls| && RefreshLevel(orders, ls[i]).queue != [] ::
              RefreshLevel(orders, ls[i]) in Refresh(orders, ls)
  {
    if ls != [] {
      RefreshMembers(orders, ls[1..]);
      forall l | l in Refresh(orders, ls)
        ensures l.queue != [] && exists i :: 0 <= i < |ls| && l == RefreshLevel(orders, ls[i])
      {
        if l in Refresh(orders, ls[1..]) {
          var i :| 0 <= i < |ls[1..]| && l == RefreshLevel(orders, ls[1..][i]);
          assert ls[i + 1] == ls[1..][i];
        } else {
          assert l == RefreshLevel(orders, ls[0]);
        }
      }
      forall i | 0 <= i < |ls| && RefreshLevel(orders, ls[i]).queue != []
        ensures RefreshLevel(orders, ls[i]) in Refresh(orders, ls)
      {
        if i > 0 {
          assert ls[1..][i - 1] == ls[i];
        }
      }
    }
  }

  lemma {:induction false} RefreshSorted(s: Side, orders: Orders, ls: seq<Level>)
    requires Sorted(s, ls)
    ensures Sorted(s, Refresh(orders, ls))
  {
    if ls != [] {
      var rest := Refresh(orders, ls[1..]);
      RefreshSorted(s, orders, ls[1..]);
      RefreshMembers(orders, ls[1..]);
      forall l | l in rest
        ensures Better(s, ls[0].price, l.price)
      {
        var i :| 0 <= i < |ls[1..]| && l == RefreshLevel(orders, ls[1..][i]);
        assert ls[1..][i] == ls[i + 1];
      }
    }
  }

  lemma RefreshKeepsSide(s: Side, ls: seq<Level>, a: Orders, b: Orders)
    requires SideOk(s, ls, a) && Shrinks(a, b)
    ensures SideOk(s, Refresh(b, ls), b)
  {
    var rs := Refresh(b, ls);
    RefreshSorted(s, b, ls);
    RefreshMembers(b, ls);
    forall j | 0 <= j < |rs|
      ensures LevelOk(s, rs[j], b)
    {
      assert rs[j] in rs;
      var i :| 0 <= i < |ls| && rs[j] == RefreshLevel(b, ls[i]);
      assert LevelOk(s, ls[i], a);
      LiveQueueMembers(b, ls[i].queue);
    }
    forall id | id in b && b[id].Live() && b[id].side == s
      ensures Queued(rs, id)
    {
      assert Queued(ls, id);
      var i :| 0 <= i < |ls| && id in ls[i].queue;
      LiveQueueMembers(b, ls[i].queue);
      assert RefreshLevel(b, ls[i]) in rs;
    }
  }

  /** Reducing or closing orders and rebuilding the index keeps the invariant. */
  lemma RebuildKeepsInv(b: Book, orders: Orders)
    requires Inv(b) && Shrinks(b.orders, orders)
    ensures Inv(Rebuild(b, orders))
  {
    RefreshKeepsSide(Buy, b.bids, b.orders, orders);
    RefreshKeepsSide(Sell, b.asks, b.orders, orders);
  }

  lemma CancelShrinks(b: Book, id: Id)
    requires Inv(b) && Cancellable(b, id)
    ensures Shrinks(b.orders, b.orders[id := b.orders[id].(isCancelled := true)])
  {
  }

  lemma CancelKeepsInv(b: Book, id: Id)
    requires Inv(b)
    ensures Inv(Cancel(b, id))
  {
    if Cancellable(b, id) {
      CancelShrinks(b, id);
      RebuildKeepsInv(b, Cancel(b, id).orders);
    }
  }

  // ---- adding ----

  lemma EnqueueLevels(s: Side, ls: seq<Level>, price: real, quantity: int, id: Id)
    requires Sorted(s, ls)
    ensures Sorted(s, Enqueue(s, ls, price, quantity, id))
    ensures forall l | l in Enqueue(s, ls, price, quantity, id) ::
              || l in ls
              || l == Level(price, quantity, [id])
              || exists i :: 0 <= i < |ls| && ls[i].price == price && l == Level(price, ls[i].total + quantity, ls[i].queue + [id])
    ensures Queued(Enqueue(s, ls, price, quantity, id), id)
    ensures forall x | Queued(ls, x) :: Queued(Enqueue(s, ls, price, quantity, id), x)
  {
    var i := LowerBound(s, ls, price);
    var es := Enqueue(s, ls, price, quantity, id);
    assert id in es[i].queue;
    forall x | Queued(ls, x)
      ensures Queued(es, x)
    {
      var k :| 0 <= k < |ls| && x in ls[k].queue;
      if i < |ls| && ls[i].price == price {
        assert x in es[k].queue;
      } else {
        assert es[if k < i then k else k + 1] == ls[k];
      }
    }
  }

  lemma LevelFrame(s: Side, l: Level, o1: Orders, o2: Orders)
    requires LevelOk(s, l, o1)
    requires forall id | id in l.queue :: id in o2 && o2[id] == o1[id]
    ensures LevelOk(s, l, o2)
  {
    SumFrame(o1, o2, l.queue);
  }

  lemma GrownLevelOk(s: Side, l: Level, orders: Orders, o: Order)
    requires LevelOk(s, l, orders) && o.Live() && o.side == s && o.price == l.price && o.orderId !in l.queue
    ensures LevelOk(s, Level(l.price, l.total + o.remaining, l.queue + [o.orderId]), orders[o.orderId := o])
  {
    LevelFrame(s, l, orders, orders[o.orderId := o]);
    SumConcat(orders[o.orderId := o], l.queue, [o.orderId]);
  }

  lemma AddKeepsSide(s: Side, ls: seq<Level>, orders: Orders, o: Order)
    requires SideOk(s, ls, orders) && o.Live() && !Queued(ls, o.orderId)
    ensures o.side == s ==> SideOk(s, Enqueue(s, ls, o.price, o.remaining, o.orderId), orders[o.orderId := o])
    ensures o.side != s ==> SideOk(s, ls, orders[o.orderId := o])
  {
    hide Enqueue, QueueSum, Distinct, Sorted;
    var id := o.orderId;
    var next := orders[id := o];
    forall i | 0 <= i < |ls|
      ensures LevelOk(s, ls[i], next) && id !in ls[i].queue
    {
      assert id !in ls[i].queue;
      LevelFrame(s, ls[i], orders, next);
    }
    if o.side == s {
      var es := Enqueue(s, ls, o.price, o.remaining, id);
      EnqueueLevels(s, ls, o.price, o.remaining, id);
      NewLevelOk(s, orders, o);
      forall j | 0 <= j < |es|
        ensures LevelOk(s, es[j], next)
      {
        assert es[j] in es;
        if es[j] !in ls && es[j] != Level(o.price, o.remaining, [id]) {
          var i :| 0 <= i < |ls| && ls[i].price == o.price && es[j] == Level(o.price, ls[i].total + o.remaining, ls[i].queue + [id]);
          GrownLevelOk(s, ls[i], orders, o);
        }
      }
    }
  }

  lemma NewLevelOk(s: Side, orders: Orders, o: Order)
    requires o.Live() && o.side == s
    ensures LevelOk(s, Level(o.price, o.remaining, [o.orderId]), orders[o.orderId := o])
  {
    SumConcat(orders[o.orderId := o], [o.orderId], []);
  }

  /** Exactly the live orders are queued. */
  lemma QueuedIsLive(b: Book, s: Side, id: Id)
    requires Inv(b)
    ensures Queued(b.Levels(s), id) <==> id in b.orders && b.orders[id].Live() && b.orders[id].side == s
  {
    assert SideOk(s, b.Levels(s), b.orders);
    if Queued(b.Levels(s), id) {
      var i :| 0 <= i < |b.Levels(s)| && id in b.Levels(s)[i].queue;
      assert LevelOk(s, b.Levels(s)[i], b.orders);
    }
  }

  ghost predicate IdLive(b: Book, id: Id) {
    id in b.orders && b.orders[id].Live()
  }

  /** Adding keeps the index exactly when the order is live and its id is not a live order's. */
  lemma AddKeepsInv(b: Book, o: Order)
    requires Inv(b)
    ensures Inv(Add(b, o)) <==> o.Live() && !IdLive(b, o.orderId)
  {
    var id := o.orderId;
    var next := Add(b, o);
    if o.Live() && !IdLive(b, id) {
      QueuedIsLive(b, Buy, id);
      QueuedIsLive(b, Sell, id);
      AddKeepsSide(Buy, b.bids, b.orders, o);
      AddKeepsSide(Sell, b.asks, b.orders, o);
    } else if !o.Live() {
      DeadQueued(b, o);
    } else {
      DoublyQueued(b, o);
    }
  }

  lemma DeadQueued(b: Book, o: Order)
    requires Inv(b) && !o.Live()
    ensures !Inv(Add(b, o))
  {
    var next := Add(b, o);
    var es := next.Levels(o.side);
    EnqueueLevels(o.side, b.Levels(o.side), o.price, o.remaining, o.orderId);
    var j :| 0 <= j < |es| && o.orderId in es[j].queue;
    assert !Resting(next.orders, o.side, es[j].price, o.orderId);
    assert !LevelOk(o.side, es[j], next.orders);
  }

  /** Reusing a live order's id leaves its old queue entry behind, at a wrong place or twice. */
  lemma DoublyQueued(b: Book, o: Order)
    requires Inv(b) && o.Live() && IdLive(b, o.orderId)
    ensures !Inv(Add(b, o))
  {
    hide Enqueue, QueueSum, Distinct, Sorted, LowerBound;
    var id := o.orderId;
    var s0 := b.orders[id].side;
    var next := Add(b, o);
    var ls, es := b.Levels(s0), next.Levels(s0);
    QueuedIsLive(b, s0, id);
    var k :| 0 <= k < |ls| && id in ls[k].queue;
    assert SideOk(s0, ls, b.orders);
    var i := LowerBound(s0, ls, o.price);
    if s0 != o.side {
      assert !Resting(next.orders, s0, es[k].price, id);
      assert !LevelOk(s0, es[k], next.orders);
    } else if i < |ls| && ls[i].price == o.price && k == i {
      SameLevelTwice(b, o, i);
    } else {
      var k' := StalePlace(s0, ls, o, k);
      assert !Resting(next.orders, s0, es[k'].price, id);
      assert !LevelOk(s0, es[k'], next.orders);
    }
  }

  lemma SameLevelTwice(b: Book, o: Order, i: nat)
    requires var ls := b.Levels(o.side);
             i == LowerBound(o.side, ls, o.price) < |ls| && ls[i].price == o.price && o.orderId in ls[i].queue
    ensures !Inv(Add(b, o))
  {
    var q := b.Levels(o.side)[i].queue;
    var l := Add(b, o).Levels(o.side)[i];
    var j :| 0 <= j < |q| && q[j] == o.orderId;
    assert l.queue == q + [o.orderId];
    assert l.queue[j] == l.queue[|q|] && !Distinct(l.queue);
    assert !LevelOk(o.side, l, Add(b, o).orders);
  }

  lemma StalePlace(s: Side, ls: seq<Level>, o: Order, k: nat) returns (k': nat)
    requires Sorted(s, ls) && k < |ls|
    requires var i := LowerBound(s, ls, o.price); !(i < |ls| && ls[i].price == o.price && k == i)
    ensures ls[k].price != o.price
    ensures var es := Enqueue(s, ls, o.price, o.remaining, o.orderId); k' < |es| && es[k'] == ls[k]
  {
    var i := LowerBound(s, ls, o.price);
    k' := if k < i || (i < |ls| && ls[i].price == o.price) then k else k + 1;
    if i < k {
      assert Better(s, ls[i].price, ls[k].price);
    }
  }
}
