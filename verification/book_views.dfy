/** The incrementally kept levels against quotes computed from scratch out of all open orders. */
module BookViews {
  import opened Types
  import opened BookSpec
  import opened BookIndex

  /** Adds quantity at a price to a list of quotes sorted for side s. */
  function PutQuote(s: Side, qs: seq<Quote>, price: real, quantity: int): seq<Quote> {
    if qs == [] || Better(s, price, qs[0].price) then [Quote(price, quantity)] + qs
    else if qs[0].price == price then [Quote(price, qs[0].total + quantity)] + qs[1..]
    else [qs[0]] + PutQuote(s, qs[1..], price, quantity)
  }

  /** Sorting and summing a list of orders from scratch. */
  function Tally(s: Side, all: seq<Order>): seq<Quote> {
    if all == [] then []
    else if all[0].side == s then PutQuote(s, Tally(s, all[1..]), all[0].price, all[0].remaining)
    else Tally(s, all[1..])
  }

  /** all lists the live orders, each once, in any order. */
  ghost predicate Enumerates(all: seq<Order>, orders: Orders) {
    && (forall i, j | 0 <= i < j < |all| :: all[i].orderId != all[j].orderId)
    && (forall o | o in all :: o.orderId in orders && orders[o.orderId] == o && o.Live())
    && (forall id | id in orders && orders[id].Live() :: orders[id] in all)
  }

  ghost predicate SortedQuotes(s: Side, qs: seq<Quote>) {
    forall i, j | 0 <= i < j < |qs| :: Better(s, qs[i].price, qs[j].price)
  }

  ghost predicate Quoted(qs: seq<Quote>, p: real) {
    exists k :: 0 <= k < |qs| && qs[k].price == p
  }

  function TotalAt(qs: seq<Quote>, p: real): int {
    if qs == [] then 0 else (if qs[0].price == p then qs[0].total else 0) + TotalAt(qs[1..], p)
  }

  predicate At(o: Order, s: Side, p: real) {
    o.side == s && o.price == p
  }

  function SumAt(all: seq<Order>, s: Side, p: real): int {
    if all == [] then 0 else (if At(all[0], s, p) then all[0].remaining else 0) + SumAt(all[1..], s, p)
  }

  lemma {:induction false} TotalOfSorted(s: Side, qs: seq<Quote>, k: nat)
    requires SortedQuotes(s, qs) && k < |qs|
    ensures TotalAt(qs, qs[k].price) == qs[k].total
  {
    if k == 0 {
      TotalAbsent(qs[1..], qs[0].price);
    } else {
      TotalOfSorted(s, qs[1..], k - 1);
    }
  }

  lemma {:induction false} TotalAbsent(qs: seq<Quote>, p: real)
    requires forall i | 0 <= i < |qs| :: qs[i].price != p
    ensures TotalAt(qs, p) == 0
  {
    if qs != [] {
      TotalAbsent(qs[1..], p);
    }
  }

  /** A sorted list of quotes is fixed by which prices occur and with what totals. */
  lemma {:induction false} QuotesUnique(s: Side, a: seq<Quote>, b: seq<Quote>)
    requires SortedQuotes(s, a) && SortedQuotes(s, b)
    requires forall p :: Quoted(a, p) <==> Quoted(b, p)
    requires forall p :: TotalAt(a, p) == TotalAt(b, p)
    ensures a == b
  {
    assert b != [] ==> Quoted(b, b[0].price);
    if a != [] {
      assert Quoted(a, a[0].price);
      var k :| 0 <= k < |b| && b[k].price == a[0].price;
      var m :| 0 <= m < |a| && a[m].price == b[0].price;
      assert k == 0;
      TotalOfSorted(s, a, 0);
      TotalOfSorted(s, b, 0);
      forall p
        ensures Quoted(a[1..], p) <==> Quoted(b[1..], p)
        ensures TotalAt(a[1..], p) == TotalAt(b[1..], p)
      {
        TailQuoted(s, a, p);
        TailQuoted(s, b, p);
        assert Quoted(a, p) <==> Quoted(b, p);
        assert TotalAt(a, p) == TotalAt(b, p);
      }
      QuotesUnique(s, a[1..], b[1..]);
      assert a == [a[0]] + a[1..] && b == [b[0]] + b[1..];
    }
  }

  lemma TailQuoted(s: Side, a: seq<Quote>, p: real)
    requires SortedQuotes(s, a) && a != []
    ensures Quoted(a[1..], p) <==> Quoted(a, p) && p != a[0].price
  {
    if Quoted(a[1..], p) {
      var k :| 0 <= k < |a[1..]| && a[1..][k].price == p;
      assert a[k + 1].price == p;
    }
    if Quoted(a, p) && p != a[0].price {
      var k :| 0 <= k < |a| && a[k].price == p;
      assert a[1..][k - 1].price == p;
    }
  }

  lemma {:induction false} PutQuoteEffect(s: Side, qs: seq<Quote>, price: real, quantity: int)
    requires SortedQuotes(s, qs)
    ensures var r := PutQuote(s, qs, price, quantity);
            && SortedQuotes(s, r)
            && (forall p :: Quoted(r, p) <==> p == price || Quoted(qs, p))
            && (forall p :: TotalAt(r, p) == TotalAt(qs, p) + (if p == price then quantity else 0))
  {
    var r := PutQuote(s, qs, price, quantity);
    if qs == [] || Better(s, price, qs[0].price) {
      assert r[1..] == qs;
      QuotedCons(r);
    } else if qs[0].price == price {
      QuotedCons(r);
      QuotedCons(qs);
    } else {
      PutQuoteEffect(s, qs[1..], price, quantity);
      var rest := PutQuote(s, qs[1..], price, quantity);
      assert r[1..] == rest;
      QuotedCons(r);
      QuotedCons(qs);
      forall j | 0 <= j < |rest|
        ensures Better(s, qs[0].price, rest[j].price)
      {
        assert Quoted(rest, rest[j].price);
        if rest[j].price != price {
          assert Quoted(qs[1..], rest[j].price);
        }
      }
    }
  }

  lemma QuotedCons(qs: seq<Quote>)
    requires qs != []
    ensures forall p :: Quoted(qs, p) <==> p == qs[0].price || Quoted(qs[1..], p)
  {
    forall p
      ensures Quoted(qs, p) <==> p == qs[0].price || Quoted(qs[1..], p)
    {
      if Quoted(qs, p) && p != qs[0].price {
        var k :| 0 <= k < |qs| && qs[k].price == p;
        assert qs[1..][k - 1].price == p;
      }
      if Quoted(qs[1..], p) {
        var k :| 0 <= k < |qs[1..]| && qs[1..][k].price == p;
        assert qs[k + 1].price == p;
      }
    }
  }

  ghost predicate Offered(all: seq<Order>, s: Side, p: real) {
    exists o :: o in all && At(o, s, p)
  }

  lemma {:induction false} TallyEffect(s: Side, all: seq<Order>)
    ensures SortedQuotes(s, Tally(s, all))
    ensures forall p :: Quoted(Tally(s, all), p) <==> Offered(all, s, p)
    ensures forall p :: TotalAt(Tally(s, all), p) == SumAt(all, s, p)
  {
    if all != [] {
      TallyEffect(s, all[1..]);
      if all[0].side == s {
        PutQuoteEffect(s, Tally(s, all[1..]), all[0].price, all[0].remaining);
      }
      forall p
        ensures Offered(all, s, p) <==> At(all[0], s, p) || Offered(all[1..], s, p)
      {
        if Offered(all, s, p) && !At(all[0], s, p) {
          var o :| o in all && At(o, s, p);
          assert o in all[1..];
        }
        if Offered(all[1..], s, p) {
          var o :| o in all[1..] && At(o, s, p);
          assert o in all;
        }
      }
    }
  }

  // ---- sums over sets of orders ----

  ghost function SetSum(orders: Orders, ids: set<Id>): int {
    if ids == {} then 0
    else
      var x :| x in ids;
      Rem(orders, x) + SetSum(orders, ids - {x})
  }

  lemma {:induction false} SetSumPick(orders: Orders, ids: set<Id>, y: Id)
    requires y in ids
    ensures SetSum(orders, ids) == Rem(orders, y) + SetSum(orders, ids - {y})
    decreases |ids|
  {
    var x :| x in ids && SetSum(orders, ids) == Rem(orders, x) + SetSum(orders, ids - {x});
    if x != y {
      SetSumPick(orders, ids - {x}, y);
      SetSumPick(orders, ids - {y}, x);
      assert ids - {x} - {y} == ids - {y} - {x};
    }
  }

  lemma {:induction false} QueueSumIsSetSum(orders: Orders, q: seq<Id>)
    requires Distinct(q)
    ensures QueueSum(orders, q) == SetSum(orders, set id | id in q)
  {
    if q != [] {
      var ids := set id | id in q;
      QueueSumIsSetSum(orders, q[1..]);
      SetSumPick(orders, ids, q[0]);
      assert ids - {q[0]} == set id | id in q[1..];
    }
  }

  ghost function IdsAt(all: seq<Order>, s: Side, p: real): set<Id> {
    set o | o in all && At(o, s, p) :: o.orderId
  }

  lemma {:induction false} SumAtIsSetSum(orders: Orders, all: seq<Order>, s: Side, p: real)
    requires forall i, j | 0 <= i < j < |all| :: all[i].orderId != all[j].orderId
    requires forall o | o in all :: o.orderId in orders && orders[o.orderId] == o
    ensures SumAt(all, s, p) == SetSum(orders, IdsAt(all, s, p))
  {
    if all != [] {
      SumAtIsSetSum(orders, all[1..], s, p);
      var ids, rest := IdsAt(all, s, p), IdsAt(all[1..], s, p);
      assert all[0] in all;
      assert forall o :: o in all <==> o == all[0] || o in all[1..];
      if At(all[0], s, p) {
        SetSumPick(orders, ids, all[0].orderId);
        assert ids - {all[0].orderId} == rest by {
          forall id | id in ids - {all[0].orderId}
            ensures id in rest
          {
            var o :| o in all && At(o, s, p) && o.orderId == id;
            assert o in all[1..];
          }
          forall id | id in rest
            ensures id in ids && id != all[0].orderId
          {
            var o :| o in all[1..] && At(o, s, p) && o.orderId == id;
            assert o in all;
          }
        }
      } else {
        assert ids == rest by {
          forall id | id in ids
            ensures id in rest
          {
            var o :| o in all && At(o, s, p) && o.orderId == id;
            assert o in all[1..];
          }
        }
      }
    }
  }

  /** A cached level total is the sum over all open orders at its side and price. */
  lemma LevelTotal(b: Book, s: Side, all: seq<Order>, k: nat)
    requires Inv(b) && Enumerates(all, b.orders) && k < |b.Levels(s)|
    ensures b.Levels(s)[k].total == SumAt(all, s, b.Levels(s)[k].price)
    ensures Offered(all, s, b.Levels(s)[k].price)
  {
    var l := b.Levels(s)[k];
    assert SideOk(s, b.Levels(s), b.orders);
    assert LevelOk(s, l, b.orders);
    QueueSumIsSetSum(b.orders, l.queue);
    SumAtIsSetSum(b.orders, all, s, l.price);
    assert l.queue[0] in l.queue && b.orders[l.queue[0]] in all;
    assert (set id | id in l.queue) == IdsAt(all, s, l.price) by {
      forall id | id in l.queue
        ensures id in IdsAt(all, s, l.price)
      {
        assert b.orders[id] in all && At(b.orders[id], s, l.price) && b.orders[id].orderId == id;
      }
      forall id | id in IdsAt(all, s, l.price)
        ensures id in l.queue
      {
        OpenOrderAtItsLevel(b, s, id);
        var i :| 0 <= i < |b.Levels(s)| && id in b.Levels(s)[i].queue;
        assert LevelOk(s, b.Levels(s)[i], b.orders);
        assert i == k;
      }
    }
  }

  lemma OpenOrderAtItsLevel(b: Book, s: Side, id: Id)
    requires Inv(b) && id in b.orders && b.orders[id].Live() && b.orders[id].side == s
    ensures Queued(b.Levels(s), id)
  {
    QueuedIsLive(b, s, id);
  }

  lemma QuotesFacts(b: Book, s: Side, all: seq<Order>)
    requires Inv(b) && Enumerates(all, b.orders)
    ensures SortedQuotes(s, Quotes(b.Levels(s)))
    ensures forall p :: Quoted(Quotes(b.Levels(s)), p) <==> Offered(all, s, p)
    ensures forall p :: TotalAt(Quotes(b.Levels(s)), p) == SumAt(all, s, p)
  {
    var qs := Quotes(b.Levels(s));
    assert SideOk(s, b.Levels(s), b.orders);
    hide Inv, Quotes, Quoted, Offered, TotalAt, SumAt, Enumerates;
    forall p
      ensures Quoted(qs, p) <==> Offered(all, s, p)
      ensures TotalAt(qs, p) == SumAt(all, s, p)
    {
      QuoteAt(b, s, all, p);
    }
  }

  lemma QuoteAt(b: Book, s: Side, all: seq<Order>, p: real)
    requires Inv(b) && Enumerates(all, b.orders) && SortedQuotes(s, Quotes(b.Levels(s)))
    ensures Quoted(Quotes(b.Levels(s)), p) <==> Offered(all, s, p)
    ensures TotalAt(Quotes(b.Levels(s)), p) == SumAt(all, s, p)
  {
    var qs := Quotes(b.Levels(s));
    OfferedIsQuoted(b, s, all, p);
    hide Inv, Offered, TotalAt, SumAt, Enumerates;
    if Quoted(qs, p) {
      var k :| 0 <= k < |qs| && qs[k].price == p;
      LevelTotal(b, s, all, k);
      TotalOfSorted(s, qs, k);
    } else {
      TotalAbsent(qs, p);
      NothingOffered(all, s, p);
    }
  }

  lemma OfferedIsQuoted(b: Book, s: Side, all: seq<Order>, p: real)
    requires Inv(b) && Enumerates(all, b.orders)
    ensures Offered(all, s, p) ==> Quoted(Quotes(b.Levels(s)), p)
  {
    var ls := b.Levels(s);
    if Offered(all, s, p) {
      var o :| o in all && At(o, s, p);
      OpenOrderAtItsLevel(b, s, o.orderId);
      assert SideOk(s, ls, b.orders);
      var i :| 0 <= i < |ls| && o.orderId in ls[i].queue;
      assert LevelOk(s, ls[i], b.orders);
      assert Quotes(ls)[i].price == p;
    }
  }

  lemma {:induction false} NothingOffered(all: seq<Order>, s: Side, p: real)
    ensures !Offered(all, s, p) ==> SumAt(all, s, p) == 0
  {
    if all != [] {
      assert all[0] in all;
      if Offered(all[1..], s, p) {
        var o :| o in all[1..] && At(o, s, p);
        assert o in all;
      }
      NothingOffered(all[1..], s, p);
    }
  }

  /** In a consistent book, the prices and totals of the levels are what sorting and summing any
      listing of the open orders gives; so the best level is the best open price, and a snapshot
      of depth d is the first d quotes. */
  lemma LevelsAgreeWithTally(b: Book, s: Side, all: seq<Order>)
    requires Inv(b) && Enumerates(all, b.orders)
    ensures Quotes(b.Levels(s)) == Tally(s, all)
  {
    QuotesFacts(b, s, all);
    TallyEffect(s, all);
    QuotesUnique(s, Quotes(b.Levels(s)), Tally(s, all));
  }

  /** best is the best price at which a side has open orders, with exactly those orders and the sum
      of what remains of them; none if the side has no open order. */
  ghost predicate IsBest(s: Side, orders: Orders, best: Option<Level>) {
    match best
    case None => forall id | id in orders && orders[id].Live() :: orders[id].side != s
    case Some(l) =>
      && (exists id :: Resting(orders, s, l.price, id))
      && (forall id | id in orders && orders[id].Live() && orders[id].side == s :: !Better(s, orders[id].price, l.price))
      && (forall id :: id in l.queue <==> Resting(orders, s, l.price, id))
      && forall all | Enumerates(all, orders) :: l.total == SumAt(all, s, l.price)
  }

  lemma BestIsBest(b: Book, s: Side)
    requires Inv(b)
    ensures IsBest(s, b.orders, Best(b.Levels(s)))
  {
    var ls := b.Levels(s);
    assert SideOk(s, ls, b.orders);
    if ls == [] {
      forall id | id in b.orders && b.orders[id].Live()
        ensures b.orders[id].side != s
      {
        if b.orders[id].side == s { OpenOrderAtItsLevel(b, s, id); }
      }
    } else {
      assert LevelOk(s, ls[0], b.orders);
      assert ls[0].queue[0] in ls[0].queue;
      forall id | id in b.orders && b.orders[id].Live() && b.orders[id].side == s
        ensures !Better(s, b.orders[id].price, ls[0].price)
        ensures b.orders[id].price == ls[0].price ==> id in ls[0].queue
      {
        AtOrAfterFirst(b, s, id);
      }
      forall all | Enumerates(all, b.orders)
        ensures ls[0].total == SumAt(all, s, ls[0].price)
      {
        LevelTotal(b, s, all, 0);
      }
    }
  }

  lemma AtOrAfterFirst(b: Book, s: Side, id: Id)
    requires Inv(b) && id in b.orders && b.orders[id].Live() && b.orders[id].side == s && b.Levels(s) != []
    ensures !Better(s, b.orders[id].price, b.Levels(s)[0].price)
    ensures b.orders[id].price == b.Levels(s)[0].price ==> id in b.Levels(s)[0].queue
  {
    var ls := b.Levels(s);
    OpenOrderAtItsLevel(b, s, id);
    assert SideOk(s, ls, b.orders);
    var i :| 0 <= i < |ls| && id in ls[i].queue;
    assert LevelOk(s, ls[i], b.orders);
    if i > 0 {
      assert Better(s, ls[0].price, ls[i].price);
    }
  }

  /** Two consistent books with the same open orders show the same prices and totals, however
      differently their queues are ordered. */
  lemma SameOrdersSameQuotes(b1: Book, b2: Book, s: Side)
    requires Inv(b1) && Inv(b2) && LiveOrders(b1) == LiveOrders(b2)
    ensures Quotes(b1.Levels(s)) == Quotes(b2.Levels(s))
  {
    var all := ListOf(LiveOrders(b1));
    assert Enumerates(all, b1.orders) by {
      forall id | id in b1.orders && b1.orders[id].Live()
        ensures b1.orders[id] in all
      {
        assert id in LiveOrders(b1);
      }
    }
    assert Enumerates(all, b2.orders) by {
      forall o | o in all
        ensures o.orderId in b2.orders && b2.orders[o.orderId] == o && o.Live()
      {
        assert o.orderId in LiveOrders(b2);
      }
      forall id | id in b2.orders && b2.orders[id].Live()
        ensures b2.orders[id] in all
      {
        assert id in LiveOrders(b2);
      }
    }
    LevelsAgreeWithTally(b1, s, all);
    LevelsAgreeWithTally(b2, s, all);
  }

  /** Some listing of the values of a map keyed by order id. */
  lemma {:induction false} ListOf(m: Orders) returns (all: seq<Order>)
    requires forall id | id in m :: m[id].orderId == id
    ensures forall i, j | 0 <= i < j < |all| :: all[i].orderId != all[j].orderId
    ensures forall o :: o in all <==> o.orderId in m && m[o.orderId] == o
    decreases |m|
  {
    if m == map[] {
      all := [];
    } else {
      var id :| id in m;
      var rest := m - {id};
      var tail := ListOf(rest);
      all := [m[id]] + tail;
      ConsListing(m, id, tail);
    }
  }

  lemma ConsListing(m: Orders, id: Id, tail: seq<Order>)
    requires id in m && m[id].orderId == id
    requires forall i, j | 0 <= i < j < |tail| :: tail[i].orderId != tail[j].orderId
    requires forall o :: o in tail <==> o.orderId in m - {id} && (m - {id})[o.orderId] == o
    ensures var all := [m[id]] + tail;
            && (forall i, j | 0 <= i < j < |all| :: all[i].orderId != all[j].orderId)
            && (forall o :: o in all <==> o.orderId in m && m[o.orderId] == o)
  {
    forall j | 0 <= j < |tail|
      ensures tail[j].orderId != id
    {
      assert tail[j] in tail;
    }
  }
}
