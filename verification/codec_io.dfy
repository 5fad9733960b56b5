/** The writer, the reader and the clock and message methods built on them, updated in place,
    against the encoding and reading functions. */
module WireIO {
  import opened Types
  import opened VectorClocks
  import opened Doubles
  import opened PriceWire
  import opened Wire
  import opened ClockCodec
  import opened MessageCodec

  /** Appends to a byte buffer. */
  class Writer {
    var buf: seq<Byte>

    constructor ()
      ensures buf == []
    {
      buf := [];
    }

    method WriteU8(v: Byte)
      modifies this
      ensures buf == old(buf) + [v]
    {
      buf := buf + [v];
    }

    method WriteU16(v: nat)
      requires v < TWO_16
      modifies this
      ensures buf == old(buf) + EncU16(v)
    {
      buf := buf + [v / 256, v % 256];
    }

    method WriteU32(v: nat)
      requires v < TWO_32
      modifies this
      ensures buf == old(buf) + EncU32(v)
    {
      hide EncU16;
      WriteU16(v / TWO_16);
      WriteU16(v % TWO_16);
      assert old(buf) + EncU16(v / TWO_16) + EncU16(v % TWO_16) == old(buf) + EncU32(v);
    }

    method WriteU64(v: nat)
      requires v < TWO_64
      modifies this
      ensures buf == old(buf) + EncU64(v)
    {
      hide EncU32;
      WriteU32(v / TWO_32);
      WriteU32(v % TWO_32);
      assert old(buf) + EncU32(v / TWO_32) + EncU32(v % TWO_32) == old(buf) + EncU64(v);
    }

    method WriteString(s: string)
      requires ByteString(s)
      modifies this
      ensures buf == old(buf) + EncString(s)
    {
      WriteU16(|s| % TWO_16);
      ghost var prefix := buf;
      var i := 0;
      while i < |s|
        invariant 0 <= i <= |s|
        invariant buf == prefix + CharBytes(s)[..i]
      {
        buf := buf + [s[i] as int];
        i := i + 1;
      }
      assert CharBytes(s)[..i] == CharBytes(s);
      assert old(buf) + EncU16(|s| % TWO_16) + CharBytes(s) == old(buf) + EncString(s);
    }

    method WriteInt64(v: int)
      requires Int64(v)
      modifies this
      ensures buf == old(buf) + EncInt64(v)
    {
      WriteU64(if v < 0 then v + TWO_64 else v);
    }

    /** Multiplies by ten thousand in double precision and truncates. */
    method WriteDouble(v: real)
      requires Int64(Ticks(v))
      modifies this
      ensures buf == old(buf) + EncInt64(Ticks(v))
    {
      var product := Round(v * 10000.0);
      var iv := Truncate(product);
      WriteInt64(iv);
    }

    method WriteBytes(e: seq<Byte>)
      modifies this
      ensures buf == old(buf) + e
    {
      buf := buf + e;
    }

    method WriteOrder(o: Order)
      requires TypedOrder(o)
      modifies this
      ensures buf == old(buf) + EncOrder(o)
    {
      hide EncString, EncInt64, EncU64, Ticks, ByteString;
      WriteString(o.orderId);
      WriteString(o.nodeId);
      WriteU8(if o.side == Buy then 0 else 1);
      ghost var head := old(buf) + EncString(o.orderId) + EncString(o.nodeId) + [Bit(o.side == Sell)];
      assert buf == head;
      WriteDouble(o.price);
      WriteInt64(o.quantity);
      WriteInt64(o.remaining);
      WriteU64(o.timestamp);
      WriteU8(if o.isCancelled then 1 else 0);
      assert buf == head + EncInt64(Ticks(o.price)) + EncInt64(o.quantity) + EncInt64(o.remaining)
                    + EncU64(o.timestamp) + [Bit(o.isCancelled)];
      assert buf == head + EncNumbers(o);
      assert head + EncNumbers(o) == old(buf) + EncOrder(o);
    }

    /** keys is the order in which the clock's map happened to be iterated. */
    method WriteOperation(op: Operation) returns (ghost keys: seq<Id>)
      requires ProperOpKind(op.kind) && TypedOrder(op.order) && ByteString(op.cancelOrderId)
      requires ByteString(op.originNode) && TypedClock(op.clock) && ByteString(op.opId)
      modifies this
      ensures TypedOp(op, keys) && buf == old(buf) + EncOp(op, keys)
    {
      hide EncString, EncOrder, EncClock, EncCutU32, TypedOrder, TypedClock, ByteString, Lists;
      WriteU8(OpCode(op.kind));
      WriteOrder(op.order);
      WriteString(op.cancelOrderId);
      WriteString(op.originNode);
      ghost var head := buf;
      var clockBytes;
      clockBytes, keys := SerializeClock(op.clock);
      WriteCut(|clockBytes|);
      WriteBytes(clockBytes);
      WriteString(op.opId);
      assert buf == head + EncCutU32(|clockBytes|) + clockBytes + EncString(op.opId);
      assert buf == head + (EncBlock(op.clock, keys) + EncString(op.opId));
      assert head == old(buf) + [OpCode(op.kind)] + EncOrder(op.order) + EncString(op.cancelOrderId) + EncString(op.originNode);
      assert buf == old(buf) + [OpCode(op.kind)] + EncOrder(op.order) + EncOpTail(op, keys);
      assert buf == old(buf) + EncOp(op, keys);
    }

    /** Writes a size, of which only the low 32 bits are kept. */
    method WriteCut(v: nat)
      modifies this
      ensures buf == old(buf) + EncCutU32(v)
    {
      WriteU32(v % TWO_32);
    }
  }

  lemma EntriesAppend(keys: seq<Id>, key: Id, entries: Entries)
    requires TypedEntries(keys + [key], entries)
    ensures TypedEntries(keys, entries) && key in entries && ByteString(key) && entries[key] < TWO_64
    ensures EncEntries(keys + [key], entries) == EncEntries(keys, entries) + EncEntry(key, entries[key])
  {
    hide EncEntry, ByteString;
    assert key in keys + [key];
    if keys == [] {
      assert [] + [key] == [key] && [key][1..] == [];
    } else {
      assert (keys + [key])[1..] == keys[1..] + [key];
      EntriesAppend(keys[1..], key, entries);
    }
  }

  /** The bytes are an encoding of the clock, for some iteration order of its map. */
  ghost predicate EncodesClock(bytes: seq<Byte>, c: Clock)
    requires TypedClock(c)
  {
    exists keys: seq<Id> :: Lists(keys, c.entries) && bytes == EncClock(c, keys)
  }

  /** The clock's own serialisation, in whatever order its map is iterated. */
  method SerializeClock(c: Clock) returns (bytes: seq<Byte>, ghost keys: seq<Id>)
    requires TypedClock(c)
    ensures Lists(keys, c.entries) && bytes == EncClock(c, keys)
    ensures EncodesClock(bytes, c)
  {
    hide EncString, EncCutU32, EncU64, ByteString, EncEntries;
    var w := new Writer();
    w.WriteString(c.nodeId);
    w.WriteCut(|c.entries|);
    ghost var head := w.buf;
    assert [] + EncString(c.nodeId) + EncCutU32(|c.entries|) == EncString(c.nodeId) + EncCutU32(|c.entries|);
    keys := [];
    EmptyEntries(c.entries);
    var todo := c.entries.Keys;
    while todo != {}
      invariant todo <= c.entries.Keys
      invariant forall i, j | 0 <= i < j < |keys| :: keys[i] != keys[j]
      invariant forall k :: k in keys <==> k in c.entries && k !in todo
      invariant TypedEntries(keys, c.entries)
      invariant w.buf == head + EncEntries(keys, c.entries)
      decreases todo
    {
      var key :| key in todo;
      todo := todo - {key};
      EntriesAppend(keys, key, c.entries);
      ghost var before := w.buf;
      w.WriteString(key);
      w.WriteU64(c.entries[key]);
      assert w.buf == before + EncEntry(key, c.entries[key]);
      keys := keys + [key];
    }
    ListCount(keys, c.entries);
    bytes := w.buf;
  }

  lemma EmptyEntries(entries: Entries)
    ensures TypedEntries([], entries) && EncEntries([], entries) == []
  {
  }

  lemma OpsAppend(ops: seq<Operation>, orders: seq<seq<Id>>, op: Operation, keys: seq<Id>)
    requires TypedOps(ops, orders) && TypedOp(op, keys)
    ensures TypedOps(ops + [op], orders + [keys])
    ensures EncOps(ops + [op], orders + [keys]) == EncOps(ops, orders) + EncOp(op, keys)
  {
    hide EncOp, TypedOp;
    if ops == [] {
      assert [] + [op] == [op] && [] + [keys] == [keys] && [op][1..] == [] && [keys][1..] == [];
    } else {
      assert (ops + [op])[1..] == ops[1..] + [op] && (orders + [keys])[1..] == orders[1..] + [keys];
      OpsAppend(ops[1..], orders[1..], op, keys);
    }
  }

  lemma NoOps()
    ensures TypedOps([], []) && EncOps([], []) == []
  {
  }

  /** What the types of the implementation guarantee of a message. */
  ghost predicate Writable(m: Message) {
    && ProperType(m.kind) && ByteString(m.senderId) && TypedClock(m.senderClock)
    && forall i | 0 <= i < |m.operations| :: WritableOp(m.operations[i])
  }

  ghost predicate WritableOp(op: Operation) {
    && ProperOpKind(op.kind) && TypedOrder(op.order) && ByteString(op.cancelOrderId)
    && ByteString(op.originNode) && TypedClock(op.clock) && ByteString(op.opId)
  }

  /** The bytes are an encoding of the message, for some iteration orders of its clocks' maps. */
  ghost predicate EncodesMessage(bytes: seq<Byte>, m: Message) {
    exists keys: seq<Id>, orders: seq<seq<Id>> ::
      TypedMessage(m, keys, orders) && bytes == EncMessage(m, keys, orders)
  }

  /** Writes a zero length, then everything else, then the real length over the zero. */
  method Serialize(m: Message) returns (bytes: seq<Byte>, ghost keys: seq<Id>, ghost orders: seq<seq<Id>>)
    requires Writable(m)
    ensures TypedMessage(m, keys, orders) && bytes == EncMessage(m, keys, orders)
    ensures EncodesMessage(bytes, m)
  {
    hide EncString, EncCutU32, EncClock, EncOp, EncOps, TypedClock, TypedOrder, ByteString, Lists, TypedOp, TypedOps;
    var w := new Writer();
    w.WriteU8(TypeCode(m.kind));
    w.WriteCut(0);
    w.WriteString(m.senderId);
    var clockBytes;
    clockBytes, keys := SerializeClock(m.senderClock);
    w.WriteCut(|clockBytes|);
    w.WriteBytes(clockBytes);
    w.WriteCut(|m.operations|);
    ghost var head := w.buf;
    ghost var body := EncString(m.senderId) + (EncBlock(m.senderClock, keys) + EncCutU32(|m.operations|));
    assert head == [TypeCode(m.kind)] + EncCutU32(0) + body;
    orders := [];
    NoOps();
    var i := 0;
    while i < |m.operations|
      invariant 0 <= i <= |m.operations|
      invariant TypedOps(m.operations[..i], orders)
      invariant w.buf == head + EncOps(m.operations[..i], orders)
    {
      assert WritableOp(m.operations[i]);
      ghost var opKeys := w.WriteOperation(m.operations[i]);
      OpsAppend(m.operations[..i], orders, m.operations[i], opKeys);
      assert m.operations[..i + 1] == m.operations[..i] + [m.operations[i]];
      orders := orders + [opKeys];
      i := i + 1;
    }
    assert m.operations[..i] == m.operations;
    bytes := w.buf;
    ghost var all := body + EncOps(m.operations, orders);
    assert all == EncBody(m, keys, orders);
    assert bytes == [TypeCode(m.kind)] + EncCutU32(0) + all;
    var len := new Writer();
    len.WriteCut(|bytes|);
    bytes := bytes[..1] + len.buf + bytes[5..];
    assert bytes == [TypeCode(m.kind)] + (EncCutU32(5 + |all|) + all);
  }

  /** Reads forward from a position, refusing to pass the end. */
  class Reader {
    const data: seq<Byte>
    var pos: nat

    constructor (data: seq<Byte>)
      ensures this.data == data && pos == 0
    {
      this.data := data;
      this.pos := 0;
    }

    predicate Has(need: nat)
      reads this
    {
      pos + need <= |data|
    }

    method ReadU8() returns (r: Parsed<Byte>)
      modifies this`pos
      ensures r == U8(data, old(pos)) && (r.Done? ==> pos == r.next)
    {
      if !Has(1) {
        return Overrun;
      }
      pos := pos + 1;
      return Done(data[pos - 1], pos);
    }

    method ReadU16() returns (r: Parsed<nat>)
      modifies this`pos
      ensures r == U16(data, old(pos)) && (r.Done? ==> pos == r.next)
    {
      if !Has(2) {
        return Overrun;
      }
      var v := Word16(data, pos);
      pos := pos + 2;
      return Done(v, pos);
    }

    method ReadU32() returns (r: Parsed<nat>)
      modifies this`pos
      ensures r == U32(data, old(pos)) && (r.Done? ==> pos == r.next)
    {
      if !Has(4) {
        return Overrun;
      }
      var v := Word16(data, pos) * TWO_16 + Word16(data, pos + 2);
      pos := pos + 4;
      return Done(v, pos);
    }

    method ReadU64() returns (r: Parsed<nat>)
      modifies this`pos
      ensures r == U64(data, old(pos)) && (r.Done? ==> pos == r.next)
    {
      hide U32;
      var high :- ReadU32();
      var low :- ReadU32();
      return Done(high.value * TWO_32 + low.value, pos);
    }

    method ReadString() returns (r: Parsed<string>)
      modifies this`pos
      ensures r == Text(data, old(pos)) && (r.Done? ==> pos == r.next)
    {
      var len :- ReadU16();
      if !Has(len.value) {
        return Overrun;
      }
      var s := BytesString(data[pos..pos + len.value]);
      pos := pos + len.value;
      return Done(s, pos);
    }

    method ReadDouble() returns (r: Parsed<real>)
      modifies this`pos
      ensures r == var iv := U64(data, old(pos)); if iv.Done? then Done(FromTicks(AsInt64(iv.value)), iv.next) else Overrun
      ensures r.Done? ==> pos == r.next
    {
      hide U64;
      U64Fails(data, pos);
      var iv :- ReadU64();
      return Done(FromTicks(AsInt64(iv.value)), pos);
    }

    method ReadOneOrder() returns (r: Parsed<Order>)
      modifies this`pos
      ensures r == ReadOrder(data, old(pos)) && (r.Done? ==> pos == r.next)
    {
      hide Text, U8, U64, FromTicks, AsInt64;
      var orderId :- ReadString();
      var nodeId :- ReadString();
      var side :- ReadU8();
      U64Fails(data, pos);
      var price :- ReadDouble();
      var quantity :- ReadU64();
      var remaining :- ReadU64();
      var timestamp :- ReadU64();
      var isCancelled :- ReadU8();
      return Done(Order(orderId.value, nodeId.value, if side.value == 0 then Buy else Sell, price.value,
                        AsInt64(quantity.value), AsInt64(remaining.value), timestamp.value, isCancelled.value != 0), pos);
    }

    /** The clock inside must not run past the data: that read is not checked. */
    method ReadOperation() returns (r: Parsed<Operation>)
      requires ReadOp(data, pos) != Undefined
      modifies this`pos
      ensures r == ReadOp(data, old(pos)) && (r.Done? ==> pos == r.next)
    {
      hide Text, U8, U32, ReadOrder, ReadClock;
      var kind :- ReadU8();
      var order :- ReadOneOrder();
      var cancelOrderId :- ReadString();
      var originNode :- ReadString();
      var len :- ReadU32();
      if !Has(len.value) {
        return Overrun;
      }
      var clock := DeserializeClock(data, pos);
      pos := pos + len.value;
      var opId :- ReadString();
      return Done(Operation(KindOfOp(kind.value), order.value, cancelOrderId.value, originNode.value, clock, opId.value), pos);
    }
  }

  lemma U64Fails(data: seq<Byte>, pos: nat)
    ensures U64(data, pos) != Undefined
  {
  }

  /** Unchecked: the caller must make sure that all of the clock lies within the data. */
  method DeserializeClock(data: seq<Byte>, start: nat) returns (c: Clock)
    requires ReadClock(data, start).Done?
    ensures c == ReadClock(data, start).value
  {
    hide Text, U32, U64;
    var id := Text(data, start);
    var count := U32(data, id.next);
    var entries: Entries := NewEntries(id.value);
    var pos: nat := count.next;
    var i := 0;
    while i < count.value
      invariant 0 <= i <= count.value
      invariant ReadEntries(data, pos, count.value - i, entries) == ReadEntries(data, count.next, count.value, NewEntries(id.value))
    {
      var key := Text(data, pos);
      var v := U64(data, key.next);
      entries := entries[key.value := v.value];
      pos := v.next;
      i := i + 1;
    }
    c := Clock(id.value, entries);
  }

  /** The operations read so far, then those still to be read. */
  function Behind(ops: seq<Operation>, rest: Parsed<seq<Operation>>): Parsed<seq<Operation>> {
    if rest.Done? then Done(ops + rest.value, rest.next) else rest
  }

  lemma BehindNone(rest: Parsed<seq<Operation>>)
    ensures Behind([], rest) == rest
  {
    if rest.Done? {
      assert [] + rest.value == rest.value;
    }
  }

  lemma BehindAll(data: seq<Byte>, pos: nat, ops: seq<Operation>)
    ensures Behind(ops, ReadOps(data, pos, 0)) == Done(ops, pos)
  {
    assert ops + [] == ops;
  }

  lemma OpsOneMore(data: seq<Byte>, pos: nat, count: nat, ops: seq<Operation>)
    requires count > 0
    ensures var op := ReadOp(data, pos);
            Behind(ops, ReadOps(data, pos, count)) ==
            if op.Done? then Behind(ops + [op.value], ReadOps(data, op.next, count - 1)) else op.PropagateFailure()
  {
    hide ReadOp;
    var op := ReadOp(data, pos);
    if op.Done? {
      var rest := ReadOps(data, op.next, count - 1);
      if rest.Done? {
        assert ops + ([op.value] + rest.value) == ops + [op.value] + rest.value;
      }
    }
  }

  /** Reads a whole message; whatever would be an unchecked read past the end is excluded. */
  method Deserialize(data: seq<Byte>) returns (r: Parsed<Message>)
    requires ReadMessage(data) != Undefined
    ensures r == ReadMessage(data)
  {
    hide Text, ReadClock, ReadOp, ReadOps, Behind, TypeOf, Word16;
    var reader := new Reader(data);
    var kind :- reader.ReadU8();
    var total :- reader.ReadU32();
    var senderId :- reader.ReadString();
    var clockLen :- reader.ReadU32();
    var clock := DeserializeClock(data, reader.pos);
    ghost var start := reader.pos;
    var i := 0;
    while i < clockLen.value
      invariant 0 <= i <= clockLen.value && reader.pos == start + i && reader.data == data
      invariant start + i <= |data|
    {
      var b := reader.ReadU8();
      if b.Overrun? {
        return Overrun;
      }
      i := i + 1;
    }
    var count :- reader.ReadU32();
    ghost var rest := ReadOps(data, reader.pos, count.value);
    var ops: seq<Operation> := [];
    BehindNone(rest);
    i := 0;
    while i < count.value
      invariant 0 <= i <= count.value && reader.data == data
      invariant rest == Behind(ops, ReadOps(data, reader.pos, count.value - i))
    {
      OpsOneMore(data, reader.pos, count.value - i, ops);
      var op :- reader.ReadOperation();
      ops := ops + [op.value];
      i := i + 1;
    }
    BehindAll(data, reader.pos, ops);
    return Done(Message(TypeOf(kind.value), senderId.value, clock, ops), reader.pos);
  }
}
