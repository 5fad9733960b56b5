/** What arrives of what was sent: prices as carried by the wire, clocks with their own entry. */
module Delivery {
  import opened Types
  import opened VectorClocks
  import opened PriceWire
  import opened ClockCodec
  import opened MessageCodec
  import opened CrdtSpec

  function Arrived(op: Operation): Operation {
    CutOp(op)
  }

  function ArrivedAll(ops: seq<Operation>): seq<Operation> {
    CutOps(ops)
  }

  function ArrivedMessage(msg: Message): Message {
    CutMessage(msg)
  }

  /** The same operation, up to the price of its order. */
  predicate Copy(a: Operation, b: Operation) {
    b == a.(order := a.order.(price := b.order.price))
  }

  predicate OwnClock(c: Clock) {
    OwnEntry(c)
  }

  /** Nothing but the price changes on the way, as long as the clock has its own entry. */
  lemma ArrivedCopy(a: Operation, b: Operation)
    requires Copy(a, b) && OwnClock(a.clock)
    ensures Copy(a, Arrived(b)) && Arrived(b).order.price == Carried(b.order.price)
  {
    hide Carried;
    RestoredSame(b.clock);
  }

  /** Nothing but the price and the clock can change on the way. */
  lemma ArrivedKeeps(op: Operation)
    ensures Arrived(op).kind == op.kind && Arrived(op).opId == op.opId && Arrived(op).cancelOrderId == op.cancelOrderId
    ensures Arrived(op).order == op.order.(price := Carried(op.order.price))
  {
    hide Carried, Restored;
  }

  lemma CopyMeans(a: Operation, b: Operation)
    requires Copy(a, b)
    ensures a.kind == b.kind && a.clock == b.clock && a.opId == b.opId && a.originNode == b.originNode
    ensures a.cancelOrderId == b.cancelOrderId
    ensures a.order.(price := b.order.price) == b.order
  {
  }

  lemma CopyReflexive(a: Operation)
    ensures Copy(a, a)
  {
  }

  lemma ArrivedAllAt(ops: seq<Operation>)
    ensures |ArrivedAll(ops)| == |ops|
    ensures forall i | 0 <= i < |ops| :: ArrivedAll(ops)[i] == Arrived(ops[i]) && ArrivedAll(ops)[i].opId == ops[i].opId
  {
    hide Carried, Restored;
  }

  lemma ArrivedIds(ops: seq<Operation>)
    ensures Ids(ArrivedAll(ops)) == Ids(ops)
  {
    ArrivedAllAt(ops);
    hide ArrivedAll, Arrived;
    var more := ArrivedAll(ops);
    forall x | x in Ids(ops)
      ensures x in Ids(more)
    {
      var op :| op in ops && op.opId == x;
      var i :| 0 <= i < |ops| && ops[i] == op;
      assert more[i] in more;
    }
    forall x | x in Ids(more)
      ensures x in Ids(ops)
    {
      var op :| op in more && op.opId == x;
      var i :| 0 <= i < |more| && more[i] == op;
      assert ops[i] in ops;
    }
  }

  lemma {:induction false} ArrivedPrefix(ops: seq<Operation>, k: nat)
    requires k <= |ops|
    ensures ArrivedAll(ops)[..k] == ArrivedAll(ops[..k])
  {
    ArrivedAllAt(ops);
    ArrivedAllAt(ops[..k]);
  }

  /** A restored clock says the same about every node. */
  lemma RestoredAt(c: Clock, k: Id)
    ensures At(Restored(c).entries, k) == At(c.entries, k)
  {
  }

  /** Parts of a message that arrive as they were sent. */
  lemma ArrivedMessageParts(msg: Message)
    ensures ArrivedMessage(msg).kind == msg.kind && ArrivedMessage(msg).senderId == msg.senderId
    ensures ArrivedMessage(msg).operations == ArrivedAll(msg.operations)
    ensures ArrivedMessage(msg).senderClock == Restored(msg.senderClock)
  {
  }
}
