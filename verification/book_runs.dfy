/** Every book reachable by any sequence of operations. */
module BookRuns {
  import opened Types
  import opened BookSpec
  import opened BookIndex
  import opened Matching
  import opened BookViews

  datatype Action =
    | Place(order: Order)
    | Withdraw(id: Id)
    | Trade(aggressor: Side, quantity: int)
    | Replicate(order: Order)

  /** New orders are open, and a placed order does not reuse the id of an open one. */
  predicate Allowed(b: Book, a: Action) {
    match a
    case Place(o) => o.Live() && !(o.orderId in b.orders && b.orders[o.orderId].Live())
    case Replicate(o) => o.Live()
    case _ => true
  }

  function Perform(b: Book, a: Action): Book {
    match a
    case Place(o) => Add(b, o)
    case Withdraw(id) => Cancel(b, id)
    case Trade(s, q) => Match(b, s, q)
    case Replicate(o) => InsertReplicated(b, o)
  }

  function RunActions(b: Book, acts: seq<Action>): Book
    decreases acts
  {
    if acts == [] then b else RunActions(Perform(b, acts[0]), acts[1..])
  }

  predicate AllAllowed(b: Book, acts: seq<Action>)
    decreases acts
  {
    acts == [] || (Allowed(b, acts[0]) && AllAllowed(Perform(b, acts[0]), acts[1..]))
  }

  lemma PerformKeepsInv(b: Book, a: Action)
    requires Inv(b) && Allowed(b, a)
    ensures Inv(Perform(b, a))
  {
    hide Inv, Add, Cancel, Match;
    match a
    case Place(o) => AddKeepsInv(b, o);
    case Withdraw(id) => CancelKeepsInv(b, id);
    case Trade(s, q) => MatchKeepsInv(b, s, q);
    case Replicate(o) => if o.orderId !in b.orders { AddKeepsInv(b, o); }
  }

  /** The index invariant holds, and both sides quote what a listing of the open orders sorted and
      summed from scratch gives, after any sequence of operations on a consistent book. */
  lemma {:induction false} EveryRunConsistent(b: Book, acts: seq<Action>, s: Side, all: seq<Order>)
    requires Inv(b) && AllAllowed(b, acts)
    ensures Inv(RunActions(b, acts))
    ensures Enumerates(all, RunActions(b, acts).orders) ==>
              Quotes(RunActions(b, acts).Levels(s)) == Tally(s, all)
    decreases acts
  {
    hide Inv, Perform, Enumerates, Quotes, Tally;
    if acts == [] {
      if Enumerates(all, b.orders) {
        LevelsAgreeWithTally(b, s, all);
      }
    } else {
      PerformKeepsInv(b, acts[0]);
      EveryRunConsistent(Perform(b, acts[0]), acts[1..], s, all);
    }
  }

  /** The empty book starts every run. */
  lemma EmptyBookConsistent()
    ensures Inv(EMPTY_BOOK)
  {
  }
}
