/** The encoding of clocks: the map's entries in whatever order it is iterated. */
module ClockCodec {
  import opened Types
  import opened VectorClocks
  import opened PriceWire
  import opened Wire

  /** keys lists the keys of the map, each once: one possible iteration order. */
  ghost predicate Lists(keys: seq<Id>, entries: Entries) {
    && (forall i, j | 0 <= i < j < |keys| :: keys[i] != keys[j])
    && (forall k :: k in keys <==> k in entries)
  }

  /** What the types of the implementation guarantee: byte strings and 64-bit counters. */
  ghost predicate TypedClock(c: Clock) {
    ByteString(c.nodeId) && forall k | k in c.entries :: ByteString(k) && c.entries[k] < TWO_64
  }

  /** Nothing is too long for its length prefix. */
  ghost predicate SizedClock(c: Clock) {
    |c.nodeId| < TWO_16 && |c.entries| < TWO_32 && forall k | k in c.entries :: |k| < TWO_16
  }

  ghost predicate TypedEntries(keys: seq<Id>, entries: Entries) {
    forall k | k in keys :: k in entries && ByteString(k) && entries[k] < TWO_64
  }

  predicate ShortKeys(keys: seq<Id>) {
    forall i | 0 <= i < |keys| :: |keys[i]| < TWO_16
  }

  ghost function EncEntry(key: Id, v: nat): seq<Byte>
    requires ByteString(key) && v < TWO_64
  {
    EncString(key) + EncU64(v)
  }

  ghost function EncEntries(keys: seq<Id>, entries: Entries): seq<Byte>
    requires TypedEntries(keys, entries)
  {
    if keys == [] then [] else EncEntry(keys[0], entries[keys[0]]) + EncEntries(keys[1..], entries)
  }

  ghost function EncClock(c: Clock, keys: seq<Id>): seq<Byte>
    requires TypedClock(c) && Lists(keys, c.entries)
  {
    EncString(c.nodeId) + (EncCutU32(|keys|) + EncEntries(keys, c.entries))
  }

  /** Reads count entries into acc. */
  function ReadEntries(data: seq<Byte>, pos: nat, count: nat, acc: Entries): Parsed<Entries>
    decreases count
  {
    if count == 0 then Done(acc, pos)
    else
      var key :- Text(data, pos);
      var v :- U64(data, key.next);
      ReadEntries(data, v.next, count - 1, acc[key.value := v.value])
  }

  /** A new clock already has its own entry, at zero. */
  function NewEntries(id: Id): Entries {
    map[id := 0]
  }

  function ReadClock(data: seq<Byte>, pos: nat): Parsed<Clock> {
    var id :- Text(data, pos);
    var count :- U32(data, id.next);
    var entries :- ReadEntries(data, count.next, count.value, NewEntries(id.value));
    Done(Clock(id.value, entries.value), entries.next)
  }

  lemma EntryBack(data: seq<Byte>, pos: nat, key: Id, v: nat)
    requires ByteString(key) && |key| < TWO_16 && v < TWO_64 && Holds(data, pos, EncEntry(key, v))
    ensures Text(data, pos) == Done(key, pos + |EncString(key)|)
    ensures U64(data, pos + |EncString(key)|) == Done(v, pos + |EncEntry(key, v)|)
  {
    hide Text, U64, EncU64;
    HoldsParts(data, pos, EncString(key), EncU64(v));
    ShortStringBack(data, pos, key);
    U64Back(data, pos + |EncString(key)|, v);
  }

  ghost predicate AllIn(keys: seq<Id>, entries: Entries) {
    forall k | k in keys :: k in entries
  }

  ghost function Listed(keys: seq<Id>, entries: Entries): Entries
    requires AllIn(keys, entries)
  {
    map k | k in keys :: entries[k]
  }

  lemma ListedStep(keys: seq<Id>, entries: Entries, acc: Entries)
    requires keys != [] && AllIn(keys, entries)
    ensures AllIn(keys[1..], entries)
    ensures acc[keys[0] := entries[keys[0]]] + Listed(keys[1..], entries) == acc + Listed(keys, entries)
  {
  }

  lemma {:induction false} EntriesBack(data: seq<Byte>, pos: nat, keys: seq<Id>, entries: Entries, acc: Entries)
    requires TypedEntries(keys, entries) && AllIn(keys, entries) && ShortKeys(keys)
    requires Holds(data, pos, EncEntries(keys, entries))
    ensures ReadEntries(data, pos, |keys|, acc) == Done(acc + Listed(keys, entries), pos + |EncEntries(keys, entries)|)
    decreases |keys|
  {
    hide Text, U64, EncEntry, ByteString, Holds;
    if keys == [] {
      assert acc + Listed(keys, entries) == acc;
    } else {
      ListedStep(keys, entries, acc);
      hide Listed;
      var key, rest := keys[0], keys[1..];
      var e := EncEntry(key, entries[key]);
      HoldsParts(data, pos, e, EncEntries(rest, entries));
      EntryBack(data, pos, key, entries[key]);
      EntriesBack(data, pos + |e|, rest, entries, acc[key := entries[key]]);
    }
  }

  lemma {:induction false} ListCount(keys: seq<Id>, entries: Entries)
    requires Lists(keys, entries)
    ensures |keys| == |entries|
  {
    if keys == [] {
      assert entries.Keys == {};
      assert |entries| == |entries.Keys|;
    } else {
      var rest := entries - {keys[0]};
      assert keys[0] in entries;
      forall k
        ensures k in keys[1..] <==> k in rest
      {
        assert k in keys <==> k == keys[0] || k in keys[1..];
      }
      ListCount(keys[1..], rest);
      assert entries.Keys == rest.Keys + {keys[0]};
      assert |entries| == |entries.Keys| && |rest| == |rest.Keys|;
    }
  }

  /** The clock as it comes back: with its own entry present. */
  function Restored(c: Clock): Clock {
    Clock(c.nodeId, NewEntries(c.nodeId) + c.entries)
  }

  lemma RestoredIs(c: Clock)
    ensures Restored(c).nodeId == c.nodeId && Restored(c).entries == NewEntries(c.nodeId) + c.entries
  {
  }

  predicate OwnEntry(c: Clock) {
    c.nodeId in c.entries
  }

  /** A clock comes back unchanged if and only if its own node id is among its entries. */
  lemma RestoredSame(c: Clock)
    ensures Restored(c) == c <==> OwnEntry(c)
  {
    if OwnEntry(c) {
      assert map[c.nodeId := 0] + c.entries == c.entries;
    }
  }

  lemma AllListed(keys: seq<Id>, entries: Entries)
    requires Lists(keys, entries)
    ensures AllIn(keys, entries) && Listed(keys, entries) == entries
  {
  }

  lemma ClockParts(data: seq<Byte>, pos: nat, c: Clock, keys: seq<Id>)
    requires TypedClock(c) && SizedClock(c) && Lists(keys, c.entries) && Holds(data, pos, EncClock(c, keys))
    ensures ByteString(c.nodeId) && |keys| == |c.entries| < TWO_32 && |c.nodeId| < TWO_16 && TypedEntries(keys, c.entries)
    ensures AllIn(keys, c.entries) && ShortKeys(keys)
    ensures var a := |EncString(c.nodeId)|;
            && Holds(data, pos, EncString(c.nodeId)) && Holds(data, pos + a, EncCutU32(|keys|))
            && Holds(data, pos + a + 4, EncEntries(keys, c.entries))
            && |EncClock(c, keys)| == a + 4 + |EncEntries(keys, c.entries)|
  {
    hide Holds, EncCutU32, EncString, EncEntries, ByteString;
    ListCount(keys, c.entries);
    HoldsThree(data, pos, EncString(c.nodeId), EncCutU32(|keys|), EncEntries(keys, c.entries));
  }

  lemma ClockChain(data: seq<Byte>, pos: nat, n: nat, clock: Clock, p1: nat, p2: nat, p3: nat)
    requires Text(data, pos) == Done(clock.nodeId, p1) && U32(data, p1) == Done(n, p2)
    requires ReadEntries(data, p2, n, NewEntries(clock.nodeId)) == Done(clock.entries, p3)
    ensures ReadClock(data, pos) == Done(clock, p3)
  {
    hide Text, U32, ReadEntries;
  }

  lemma ClockPartsBack(data: seq<Byte>, pos: nat, c: Clock, keys: seq<Id>, acc: Entries)
    requires TypedClock(c) && SizedClock(c) && Lists(keys, c.entries) && Holds(data, pos, EncClock(c, keys))
    ensures ByteString(c.nodeId) && AllIn(keys, c.entries)
    ensures var p1 := pos + |EncString(c.nodeId)|;
            && Text(data, pos) == Done(c.nodeId, p1) && U32(data, p1) == Done(|keys|, p1 + 4)
            && ReadEntries(data, p1 + 4, |keys|, acc) == Done(acc + Listed(keys, c.entries), pos + |EncClock(c, keys)|)
  {
    hide *;
    ClockParts(data, pos, c, keys);
    var a := |EncString(c.nodeId)|;
    ShortStringBack(data, pos, c.nodeId);
    CutU32Back(data, pos + a, |keys|);
    EntriesBack(data, pos + a + 4, keys, c.entries, acc);
  }

  /** Whatever the iteration order, a clock comes back with its own entry added if it was absent. */
  lemma ClockBack(data: seq<Byte>, pos: nat, c: Clock, keys: seq<Id>)
    requires TypedClock(c) && SizedClock(c) && Lists(keys, c.entries) && Holds(data, pos, EncClock(c, keys))
    ensures ReadClock(data, pos) == Done(Restored(c), pos + |EncClock(c, keys)|)
  {
    hide *;
    AllListed(keys, c.entries);
    ClockPartsBack(data, pos, c, keys, NewEntries(c.nodeId));
    RestoredIs(c);
    var a := |EncString(c.nodeId)|;
    ClockChain(data, pos, |keys|, Restored(c), pos + a, pos + a + 4, pos + |EncClock(c, keys)|);
  }
}

/** The encoding of orders, operations and messages. */
module MessageCodec {
  import opened Types
  import opened VectorClocks
  import opened PriceWire
  import opened Wire
  import opened ClockCodec

  function Bit(b: bool): Byte {
    if b then 1 else 0
  }

  // ---- orders ----

  /** What the types of the implementation guarantee. */
  ghost predicate TypedOrder(o: Order) {
    && ByteString(o.orderId) && ByteString(o.nodeId) && Int64(Ticks(o.price))
    && Int64(o.quantity) && Int64(o.remaining) && o.timestamp < TWO_64
  }

  ghost predicate SizedOrder(o: Order) {
    |o.orderId| < TWO_16 && |o.nodeId| < TWO_16
  }

  function EncNumbers(o: Order): (e: seq<Byte>)
    requires Int64(Ticks(o.price)) && Int64(o.quantity) && Int64(o.remaining) && o.timestamp < TWO_64
    ensures |e| == 33
  {
    EncInt64(Ticks(o.price)) + (EncInt64(o.quantity) + (EncInt64(o.remaining) + (EncU64(o.timestamp) + [Bit(o.isCancelled)])))
  }

  ghost function EncOrder(o: Order): seq<Byte>
    requires TypedOrder(o)
  {
    EncString(o.orderId) + (EncString(o.nodeId) + ([Bit(o.side == Sell)] + EncNumbers(o)))
  }

  datatype Numbers = Numbers(price: real, quantity: int, remaining: int, timestamp: nat, isCancelled: bool)

  function ReadNumbers(data: seq<Byte>, pos: nat): Parsed<Numbers> {
    var price :- U64(data, pos);
    var quantity :- U64(data, price.next);
    var remaining :- U64(data, quantity.next);
    var timestamp :- U64(data, remaining.next);
    var isCancelled :- U8(data, timestamp.next);
    Done(Numbers(FromTicks(AsInt64(price.value)), AsInt64(quantity.value), AsInt64(remaining.value), timestamp.value,
                 isCancelled.value != 0), isCancelled.next)
  }

  function ReadOrder(data: seq<Byte>, pos: nat): Parsed<Order> {
    var orderId :- Text(data, pos);
    var nodeId :- Text(data, orderId.next);
    var side :- U8(data, nodeId.next);
    var n :- ReadNumbers(data, side.next);
    Done(Order(orderId.value, nodeId.value, if side.value == 0 then Buy else Sell, n.value.price, n.value.quantity,
               n.value.remaining, n.value.timestamp, n.value.isCancelled), n.next)
  }

  /** The order as it comes back: with the price as carried in whole ten-thousandths. */
  function CutOrder(o: Order): Order {
    o.(price := Carried(o.price))
  }

  lemma ByteBack(data: seq<Byte>, pos: nat, b: Byte)
    requires Holds(data, pos, [b])
    ensures U8(data, pos) == Done(b, pos + 1)
  {
    assert data[pos..pos + 1][0] == b;
  }

  lemma NumbersBack(data: seq<Byte>, pos: nat, o: Order)
    requires Int64(Ticks(o.price)) && Int64(o.quantity) && Int64(o.remaining) && o.timestamp < TWO_64
    requires Holds(data, pos, EncNumbers(o))
    ensures ReadNumbers(data, pos)
            == Done(Numbers(FromTicks(Ticks(o.price)), o.quantity, o.remaining, o.timestamp, o.isCancelled), pos + 33)
  {
    hide U64, U8, EncInt64, EncU64, Ticks, FromTicks, AsInt64, Holds;
    var e := [Bit(o.isCancelled)];
    var d := EncU64(o.timestamp) + e;
    var c := EncInt64(o.remaining) + d;
    var b := EncInt64(o.quantity) + c;
    HoldsParts(data, pos, EncInt64(Ticks(o.price)), b);
    HoldsParts(data, pos + 8, EncInt64(o.quantity), c);
    HoldsParts(data, pos + 16, EncInt64(o.remaining), d);
    HoldsParts(data, pos + 24, EncU64(o.timestamp), e);
    Int64Back(data, pos, Ticks(o.price));
    Int64Back(data, pos + 8, o.quantity);
    Int64Back(data, pos + 16, o.remaining);
    U64Back(data, pos + 24, o.timestamp);
    ByteBack(data, pos + 32, Bit(o.isCancelled));
  }

  lemma OrderBack(data: seq<Byte>, pos: nat, o: Order)
    requires TypedOrder(o) && SizedOrder(o) && Holds(data, pos, EncOrder(o))
    ensures ReadOrder(data, pos) == Done(CutOrder(o), pos + |EncOrder(o)|)
  {
    hide Text, U8, EncNumbers, ReadNumbers, EncString, Ticks, FromTicks, Holds;
    var d := EncNumbers(o);
    var c := [Bit(o.side == Sell)] + d;
    var b := EncString(o.nodeId) + c;
    var a := EncString(o.orderId);
    HoldsParts(data, pos, a, b);
    HoldsParts(data, pos + |a|, EncString(o.nodeId), c);
    HoldsParts(data, pos + |a| + |EncString(o.nodeId)|, [Bit(o.side == Sell)], d);
    ShortStringBack(data, pos, o.orderId);
    ShortStringBack(data, pos + |a|, o.nodeId);
    ByteBack(data, pos + |a| + |EncString(o.nodeId)|, Bit(o.side == Sell));
    NumbersBack(data, pos + |a| + |EncString(o.nodeId)| + 1, o);
  }

  // ---- operations ----

  function OpCode(kind: OpKind): nat {
    match kind
    case AddOrder => 0
    case CancelOrder => 1
    case OtherOp(code) => code
  }

  function KindOfOp(code: nat): OpKind {
    if code == 0 then AddOrder else if code == 1 then CancelOrder else OtherOp(code)
  }

  predicate ProperOpKind(kind: OpKind) {
    kind.OtherOp? ==> 2 <= kind.code < 256
  }

  ghost predicate TypedOp(op: Operation, keys: seq<Id>) {
    && ProperOpKind(op.kind) && TypedOrder(op.order) && ByteString(op.cancelOrderId) && ByteString(op.originNode)
    && TypedClock(op.clock) && Lists(keys, op.clock.entries) && ByteString(op.opId)
  }

  ghost predicate SizedOp(op: Operation, keys: seq<Id>)
    requires TypedOp(op, keys)
  {
    && SizedOrder(op.order) && |op.cancelOrderId| < TWO_16 && |op.originNode| < TWO_16
    && SizedClock(op.clock) && |EncClock(op.clock, keys)| < TWO_32 && |op.opId| < TWO_16
  }

  /** A clock with its length in front. */
  ghost function EncBlock(c: Clock, keys: seq<Id>): seq<Byte>
    requires TypedClock(c) && Lists(keys, c.entries)
  {
    EncCutU32(|EncClock(c, keys)|) + EncClock(c, keys)
  }

  ghost function EncOpTail(op: Operation, keys: seq<Id>): seq<Byte>
    requires TypedOp(op, keys)
  {
    EncString(op.cancelOrderId) + (EncString(op.originNode) + (EncBlock(op.clock, keys) + EncString(op.opId)))
  }

  ghost function EncOp(op: Operation, keys: seq<Id>): seq<Byte>
    requires TypedOp(op, keys)
  {
    [OpCode(op.kind)] + (EncOrder(op.order) + EncOpTail(op, keys))
  }

  /** The length is checked, what is inside is not; the reader then moves on by the length. */
  function ReadCheckedBlock(data: seq<Byte>, pos: nat): Parsed<Clock> {
    var len :- U32(data, pos);
    if len.next + len.value > |data| then Overrun
    else
      var clock :- Unchecked(ReadClock(data, len.next));
      Done(clock.value, len.next + len.value)
  }

  function ReadOp(data: seq<Byte>, pos: nat): Parsed<Operation> {
    var kind :- U8(data, pos);
    var order :- ReadOrder(data, kind.next);
    var cancelOrderId :- Text(data, order.next);
    var originNode :- Text(data, cancelOrderId.next);
    var clock :- ReadCheckedBlock(data, originNode.next);
    var opId :- Text(data, clock.next);
    Done(Operation(KindOfOp(kind.value), order.value, cancelOrderId.value, originNode.value, clock.value, opId.value),
         opId.next)
  }

  /** The operation as it comes back. */
  function CutOp(op: Operation): Operation {
    op.(order := CutOrder(op.order), clock := Restored(op.clock))
  }

  lemma BlockBack(data: seq<Byte>, pos: nat, c: Clock, keys: seq<Id>)
    requires TypedClock(c) && SizedClock(c) && Lists(keys, c.entries) && |EncClock(c, keys)| < TWO_32
    requires Holds(data, pos, EncBlock(c, keys))
    ensures U32(data, pos) == Done(|EncClock(c, keys)|, pos + 4)
    ensures ReadClock(data, pos + 4) == Done(Restored(c), pos + |EncBlock(c, keys)|)
    ensures pos + |EncBlock(c, keys)| == pos + 4 + |EncClock(c, keys)| <= |data|
    ensures ReadCheckedBlock(data, pos) == Done(Restored(c), pos + |EncBlock(c, keys)|)
  {
    hide U32, ReadClock, EncClock, EncCutU32, TypedClock, SizedClock, Lists, Restored;
    var n := |EncClock(c, keys)|;
    HoldsParts(data, pos, EncCutU32(n), EncClock(c, keys));
    CutU32Back(data, pos, n);
    ClockBack(data, pos + 4, c, keys);
  }

  lemma OpTailBack(data: seq<Byte>, pos: nat, op: Operation, keys: seq<Id>)
    requires TypedOp(op, keys) && SizedOp(op, keys) && Holds(data, pos, EncOpTail(op, keys))
    ensures var p1 := pos + |EncString(op.cancelOrderId)|;
            var p2 := p1 + |EncString(op.originNode)|;
            var p3 := p2 + |EncBlock(op.clock, keys)|;
            && Text(data, pos) == Done(op.cancelOrderId, p1) && Text(data, p1) == Done(op.originNode, p2)
            && ReadCheckedBlock(data, p2) == Done(Restored(op.clock), p3)
            && Text(data, p3) == Done(op.opId, pos + |EncOpTail(op, keys)|)
  {
    hide Text, EncString, ReadCheckedBlock, EncBlock, TypedOrder, SizedOrder, TypedClock, SizedClock, Lists, Restored, EncClock, Holds;
    var c := EncBlock(op.clock, keys) + EncString(op.opId);
    var b := EncString(op.originNode) + c;
    var p1 := pos + |EncString(op.cancelOrderId)|;
    var p2 := p1 + |EncString(op.originNode)|;
    var p3 := p2 + |EncBlock(op.clock, keys)|;
    HoldsParts(data, pos, EncString(op.cancelOrderId), b);
    HoldsParts(data, p1, EncString(op.originNode), c);
    HoldsParts(data, p2, EncBlock(op.clock, keys), EncString(op.opId));
    ShortStringBack(data, pos, op.cancelOrderId);
    ShortStringBack(data, p1, op.originNode);
    BlockBack(data, p2, op.clock, keys);
    ShortStringBack(data, p3, op.opId);
  }

  lemma OpParts(data: seq<Byte>, pos: nat, op: Operation, keys: seq<Id>)
    requires TypedOp(op, keys) && Holds(data, pos, EncOp(op, keys))
    ensures ProperOpKind(op.kind) && TypedOrder(op.order)
    ensures var p1 := pos + 1 + |EncOrder(op.order)|;
            && Holds(data, pos, [OpCode(op.kind)]) && Holds(data, pos + 1, EncOrder(op.order))
            && Holds(data, p1, EncOpTail(op, keys)) && p1 + |EncOpTail(op, keys)| == pos + |EncOp(op, keys)|
  {
    hide EncOrder, EncOpTail, Holds, TypedOrder, TypedClock, Lists, ByteString;
    HoldsThree(data, pos, [OpCode(op.kind)], EncOrder(op.order), EncOpTail(op, keys));
  }

  lemma OpChain(data: seq<Byte>, p: seq<nat>, code: Byte, op: Operation)
    requires |p| == 7 && op.kind == KindOfOp(code)
    requires U8(data, p[0]) == Done(code, p[1]) && ReadOrder(data, p[1]) == Done(op.order, p[2])
    requires Text(data, p[2]) == Done(op.cancelOrderId, p[3]) && Text(data, p[3]) == Done(op.originNode, p[4])
    requires ReadCheckedBlock(data, p[4]) == Done(op.clock, p[5]) && Text(data, p[5]) == Done(op.opId, p[6])
    ensures ReadOp(data, p[0]) == Done(op, p[6])
  {
    hide U8, ReadOrder, Text, ReadCheckedBlock, KindOfOp;
  }

  lemma OpBack(data: seq<Byte>, pos: nat, op: Operation, keys: seq<Id>)
    requires TypedOp(op, keys) && SizedOp(op, keys) && Holds(data, pos, EncOp(op, keys))
    ensures ReadOp(data, pos) == Done(CutOp(op), pos + |EncOp(op, keys)|)
  {
    hide *;
    OpTypes(op, keys);
    OpParts(data, pos, op, keys);
    OpCodeBack(op.kind);
    CutOpIs(op);
    var r := CutOp(op);
    var p2 := pos + 1 + |EncOrder(op.order)|;
    var p3 := p2 + |EncString(op.cancelOrderId)|;
    var p4 := p3 + |EncString(op.originNode)|;
    ByteBack(data, pos, OpCode(op.kind));
    OrderBack(data, pos + 1, op.order);
    OpTailBack(data, p2, op, keys);
    OpChain(data, [pos, pos + 1, p2, p3, p4, p4 + |EncBlock(op.clock, keys)|, pos + |EncOp(op, keys)|], OpCode(op.kind), r);
  }

  lemma CutOpIs(op: Operation)
    ensures CutOp(op) == Operation(op.kind, CutOrder(op.order), op.cancelOrderId, op.originNode, Restored(op.clock), op.opId)
  {
  }

  lemma OpCodeBack(kind: OpKind)
    requires ProperOpKind(kind)
    ensures OpCode(kind) < 256 && KindOfOp(OpCode(kind)) == kind
  {
  }

  lemma OpTypes(op: Operation, keys: seq<Id>)
    requires TypedOp(op, keys) && SizedOp(op, keys)
    ensures ProperOpKind(op.kind) && TypedOrder(op.order) && SizedOrder(op.order)
    ensures ByteString(op.cancelOrderId) && ByteString(op.originNode) && TypedClock(op.clock)
    ensures Lists(keys, op.clock.entries) && ByteString(op.opId)
  {
  }

  ghost predicate TypedOps(ops: seq<Operation>, orders: seq<seq<Id>>) {
    |orders| == |ops| && forall i | 0 <= i < |ops| :: TypedOp(ops[i], orders[i])
  }

  ghost predicate SizedOps(ops: seq<Operation>, orders: seq<seq<Id>>)
    requires TypedOps(ops, orders)
  {
    forall i | 0 <= i < |ops| :: SizedOp(ops[i], orders[i])
  }

  ghost function EncOps(ops: seq<Operation>, orders: seq<seq<Id>>): seq<Byte>
    requires TypedOps(ops, orders)
  {
    if ops == [] then [] else EncOp(ops[0], orders[0]) + EncOps(ops[1..], orders[1..])
  }

  function ReadOps(data: seq<Byte>, pos: nat, count: nat): Parsed<seq<Operation>>
    decreases count
  {
    if count == 0 then Done([], pos)
    else
      var op :- ReadOp(data, pos);
      var rest :- ReadOps(data, op.next, count - 1);
      Done([op.value] + rest.value, rest.next)
  }

  function CutOps(ops: seq<Operation>): (r: seq<Operation>)
    ensures |r| == |ops| && forall i | 0 <= i < |ops| :: r[i] == CutOp(ops[i])
  {
    if ops == [] then [] else [CutOp(ops[0])] + CutOps(ops[1..])
  }

  lemma {:induction false} OpsBack(data: seq<Byte>, pos: nat, ops: seq<Operation>, orders: seq<seq<Id>>)
    requires TypedOps(ops, orders) && SizedOps(ops, orders) && Holds(data, pos, EncOps(ops, orders))
    ensures ReadOps(data, pos, |ops|) == Done(CutOps(ops), pos + |EncOps(ops, orders)|)
    decreases |ops|
  {
    hide ReadOp, EncOp, CutOp, TypedOp, SizedOp, Holds;
    if ops != [] {
      HoldsParts(data, pos, EncOp(ops[0], orders[0]), EncOps(ops[1..], orders[1..]));
      OpBack(data, pos, ops[0], orders[0]);
      OpsBack(data, pos + |EncOp(ops[0], orders[0])|, ops[1..], orders[1..]);
    }
  }

  // ---- messages ----

  predicate ProperType(kind: MessageType) {
    kind.OtherMessage? ==> kind.code < 256 && !(1 <= kind.code <= 6)
  }

  function TypeCode(kind: MessageType): (c: nat)
    ensures ProperType(kind) ==> c < 256
  {
    match kind
    case GossipPush => 1
    case GossipPull => 2
    case GossipPushPull => 3
    case Heartbeat => 4
    case AntiEntropyReq => 5
    case AntiEntropyRes => 6
    case OtherMessage(code) => code
  }

  function TypeOf(code: nat): MessageType {
    match code
    case 1 => GossipPush
    case 2 => GossipPull
    case 3 => GossipPushPull
    case 4 => Heartbeat
    case 5 => AntiEntropyReq
    case 6 => AntiEntropyRes
    case _ => OtherMessage(code)
  }

  /** keys and orders are the iteration orders of the sender's clock and of the operations' clocks. */
  ghost predicate TypedMessage(m: Message, keys: seq<Id>, orders: seq<seq<Id>>) {
    && ProperType(m.kind) && ByteString(m.senderId) && TypedClock(m.senderClock)
    && Lists(keys, m.senderClock.entries) && TypedOps(m.operations, orders)
  }

  ghost predicate SizedMessage(m: Message, keys: seq<Id>, orders: seq<seq<Id>>)
    requires TypedMessage(m, keys, orders)
  {
    && |m.senderId| < TWO_16 && SizedClock(m.senderClock) && |EncClock(m.senderClock, keys)| < TWO_32
    && |m.operations| < TWO_32 && SizedOps(m.operations, orders)
  }

  /** Everything after the type and the total length. */
  ghost function EncBody(m: Message, keys: seq<Id>, orders: seq<seq<Id>>): seq<Byte>
    requires TypedMessage(m, keys, orders)
  {
    EncString(m.senderId) + (EncBlock(m.senderClock, keys)
      + (EncCutU32(|m.operations|) + EncOps(m.operations, orders)))
  }

  ghost function EncMessage(m: Message, keys: seq<Id>, orders: seq<seq<Id>>): seq<Byte>
    requires TypedMessage(m, keys, orders)
  {
    [TypeCode(m.kind)] + (EncCutU32(5 + |EncBody(m, keys, orders)|) + EncBody(m, keys, orders))
  }

  /** The sender's clock is read before anything is checked against its length. */
  function ReadLooseBlock(data: seq<Byte>, pos: nat): Parsed<Clock> {
    var len :- U32(data, pos);
    var clock :- Unchecked(ReadClock(data, len.next));
    if len.next + len.value > |data| then Overrun else Done(clock.value, len.next + len.value)
  }

  function ReadMessage(data: seq<Byte>): Parsed<Message> {
    var kind :- U8(data, 0);
    var total :- U32(data, kind.next);
    var senderId :- Text(data, total.next);
    var clock :- ReadLooseBlock(data, senderId.next);
    var count :- U32(data, clock.next);
    var ops :- ReadOps(data, count.next, count.value);
    Done(Message(TypeOf(kind.value), senderId.value, clock.value, ops.value), ops.next)
  }

  /** The message as it comes back. */
  function CutMessage(m: Message): Message {
    m.(senderClock := Restored(m.senderClock), operations := CutOps(m.operations))
  }

  lemma BodyBack(data: seq<Byte>, pos: nat, m: Message, keys: seq<Id>, orders: seq<seq<Id>>)
    requires TypedMessage(m, keys, orders) && SizedMessage(m, keys, orders) && Holds(data, pos, EncBody(m, keys, orders))
    ensures var p1 := pos + |EncString(m.senderId)|;
            var p2 := p1 + |EncBlock(m.senderClock, keys)|;
            && Text(data, pos) == Done(m.senderId, p1)
            && ReadLooseBlock(data, p1) == Done(Restored(m.senderClock), p2)
            && U32(data, p2) == Done(|m.operations|, p2 + 4)
            && ReadOps(data, p2 + 4, |m.operations|) == Done(CutOps(m.operations), pos + |EncBody(m, keys, orders)|)
  {
    hide Text, U32, ReadClock, ReadOps, EncString, EncBlock, EncCutU32, EncOps, EncClock, Restored, CutOps, Holds, TypedClock, SizedClock, Lists, TypedOps, SizedOps;
    var d := EncOps(m.operations, orders);
    var c := EncCutU32(|m.operations|) + d;
    var b := EncBlock(m.senderClock, keys) + c;
    var p1 := pos + |EncString(m.senderId)|;
    var p2 := p1 + |EncBlock(m.senderClock, keys)|;
    HoldsParts(data, pos, EncString(m.senderId), b);
    HoldsParts(data, p1, EncBlock(m.senderClock, keys), c);
    HoldsParts(data, p2, EncCutU32(|m.operations|), d);
    ShortStringBack(data, pos, m.senderId);
    BlockBack(data, p1, m.senderClock, keys);
    CutU32Back(data, p2, |m.operations|);
    OpsBack(data, p2 + 4, m.operations, orders);
  }

  /** Whatever the iteration orders of the clocks: reading back an encoded message, even with other
      bytes behind it, consumes exactly the encoding and gives the message with its prices as
      carried and its clocks' own entries present. */
  lemma MessageBack(m: Message, keys: seq<Id>, orders: seq<seq<Id>>, trailing: seq<Byte>)
    requires TypedMessage(m, keys, orders) && SizedMessage(m, keys, orders)
    ensures ReadMessage(EncMessage(m, keys, orders) + trailing) == Done(CutMessage(m), |EncMessage(m, keys, orders)|)
  {
    hide *;
    var e := EncMessage(m, keys, orders);
    var data := e + trailing;
    HoldsPrefix(e, trailing);
    HeaderParts(data, m, keys, orders);
    ProperKind(m, keys, orders);
    var p1 := 5 + |EncString(m.senderId)|;
    var p2 := p1 + |EncBlock(m.senderClock, keys)|;
    ByteBack(data, 0, TypeCode(m.kind));
    CutU32Back(data, 1, |e|);
    BodyBack(data, 5, m, keys, orders);
    MessageChain(data, [1, 5, p1, p2, p2 + 4, |e|], TypeCode(m.kind), m.senderId, Restored(m.senderClock),
                 |m.operations|, CutOps(m.operations));
    CutMessageIs(m);
  }

  lemma HoldsPrefix(e: seq<Byte>, trailing: seq<Byte>)
    ensures Holds(e + trailing, 0, e)
  {
  }

  lemma MessageChain(data: seq<Byte>, p: seq<nat>, code: Byte, senderId: Id, clock: Clock, count: nat, ops: seq<Operation>)
    requires |p| == 6
    requires U8(data, 0) == Done(code, p[0]) && U32(data, p[0]).Done? && U32(data, p[0]).next == p[1]
    requires Text(data, p[1]) == Done(senderId, p[2]) && ReadLooseBlock(data, p[2]) == Done(clock, p[3])
    requires U32(data, p[3]) == Done(count, p[4]) && ReadOps(data, p[4], count) == Done(ops, p[5])
    ensures ReadMessage(data) == Done(Message(TypeOf(code), senderId, clock, ops), p[5])
  {
    hide U8, U32, Text, ReadLooseBlock, ReadOps, TypeOf;
  }

  lemma CutMessageIs(m: Message)
    ensures CutMessage(m) == Message(m.kind, m.senderId, Restored(m.senderClock), CutOps(m.operations))
  {
  }

  lemma ProperKind(m: Message, keys: seq<Id>, orders: seq<seq<Id>>)
    requires TypedMessage(m, keys, orders)
    ensures ProperType(m.kind) && TypeCode(m.kind) < 256 && TypeOf(TypeCode(m.kind)) == m.kind
    ensures ByteString(m.senderId) && TypedClock(m.senderClock) && Lists(keys, m.senderClock.entries)
  {
    hide ByteString, TypedClock, Lists, TypedOps;
  }

  // ---- when the trip loses nothing ----


  lemma CutOpSame(op: Operation)
    ensures CutOp(op) == op <==> Survives(op.order.price) && OwnEntry(op.clock)
  {
    hide Restored, OwnEntry, Ticks, FromTicks;
    RestoredSame(op.clock);
  }

  /** The round trip, in double precision, is exact if and only if every price survives it and every
      clock contains its own node id. */
  lemma RoundTripExactly(m: Message, keys: seq<Id>, orders: seq<seq<Id>>)
    requires TypedMessage(m, keys, orders) && SizedMessage(m, keys, orders)
    ensures ReadMessage(EncMessage(m, keys, orders)) == Done(m, |EncMessage(m, keys, orders)|) <==>
            OwnEntry(m.senderClock) && forall i | 0 <= i < |m.operations| ::
              Survives(m.operations[i].order.price) && OwnEntry(m.operations[i].clock)
  {
    hide ReadMessage, EncMessage, TypedMessage, SizedMessage, Survives, Carried, Restored, OwnEntry, CutOps, CutOp;
    MessageBack(m, keys, orders, []);
    assert EncMessage(m, keys, orders) + [] == EncMessage(m, keys, orders);
    RestoredSame(m.senderClock);
    forall i | 0 <= i < |m.operations|
      ensures CutOps(m.operations)[i] == m.operations[i] <==>
              Survives(m.operations[i].order.price) && OwnEntry(m.operations[i].clock)
    {
      CutOpSame(m.operations[i]);
    }
    assert CutOps(m.operations) == m.operations <==>
           forall i | 0 <= i < |m.operations| :: CutOps(m.operations)[i] == m.operations[i];
  }

  /** The back-patched length field is the size of the whole encoding. */
  lemma LengthField(m: Message, keys: seq<Id>, orders: seq<seq<Id>>)
    requires TypedMessage(m, keys, orders) && |EncMessage(m, keys, orders)| < TWO_32
    ensures U32(EncMessage(m, keys, orders), 1) == Done(|EncMessage(m, keys, orders)|, 5)
  {
    hide *;
    var e := EncMessage(m, keys, orders);
    HoldsPrefix(e, []);
    assert e + [] == e;
    HeaderParts(e, m, keys, orders);
    CutU32Back(e, 1, |e|);
  }

  lemma HeaderParts(data: seq<Byte>, m: Message, keys: seq<Id>, orders: seq<seq<Id>>)
    requires TypedMessage(m, keys, orders) && Holds(data, 0, EncMessage(m, keys, orders))
    ensures ProperType(m.kind)
    ensures var total := |EncMessage(m, keys, orders)|;
            && total == 5 + |EncBody(m, keys, orders)| && Holds(data, 0, [TypeCode(m.kind)])
            && Holds(data, 1, EncCutU32(total)) && Holds(data, 5, EncBody(m, keys, orders))
  {
    hide EncBody, EncCutU32, Holds, TypedMessage, TypeCode, ProperType;
    ProperKind(m, keys, orders);
    var body := EncBody(m, keys, orders);
    HoldsThree(data, 0, [TypeCode(m.kind)], EncCutU32(5 + |body|), body);
  }
}
