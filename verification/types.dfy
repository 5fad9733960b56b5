/** The values that orders, operations and clocks are made of. */
module Types {
  /** Node, order and operation names. */
  type Id = string

  /** Where 32-bit unsigned arithmetic wraps. */
  const TWO_32: nat := 0x1_0000_0000

  datatype Option<+T> = None | Some(value: T)

  datatype Side = Buy | Sell {
    function Opposite(): Side {
      if Buy? then Sell else Buy
    }
  }

  datatype Order = Order(
    orderId: Id,
    nodeId: Id,
    side: Side,
    price: real,
    quantity: int,
    remaining: int,
    timestamp: nat,
    isCancelled: bool)
  {
    /** Open for matching. */
    predicate Live() {
      !isCancelled && remaining > 0
    }
  }

  datatype Fill = Fill(orderId: Id, price: real, quantity: int)

  /** A vector clock value; an absent entry counts as zero. */
  datatype Clock = Clock(nodeId: Id, entries: map<Id, nat>)

  datatype OpKind = AddOrder | CancelOrder | OtherOp(code: nat)

  /** A replicated operation; order is used by AddOrder and cancelOrderId by CancelOrder. */
  datatype Operation = Operation(
    kind: OpKind,
    order: Order,
    cancelOrderId: Id,
    originNode: Id,
    clock: Clock,
    opId: Id)

  datatype MessageType =
    | GossipPush
    | GossipPull
    | GossipPushPull
    | Heartbeat
    | AntiEntropyReq
    | AntiEntropyRes
    | OtherMessage(code: nat)

  datatype Message = Message(kind: MessageType, senderId: Id, senderClock: Clock, operations: seq<Operation>)
}
