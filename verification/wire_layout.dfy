/** Where every byte goes: codes and words, and whole encodings byte by byte. Reading back what was
    written cannot show a code or a field order that is wrong in both directions. */
module WireLayout {
  import opened Arithmetic
  import opened Types
  import opened VectorClocks
  import opened Doubles
  import opened PriceWire
  import opened Wire
  import opened ClockCodec
  import opened MessageCodec

  /** The first byte says what kind of message follows. */
  lemma FirstByte(m: Message, keys: seq<Id>, orders: seq<seq<Id>>)
    requires TypedMessage(m, keys, orders)
    ensures var e := EncMessage(m, keys, orders);
            && |e| >= 1
            && (m.kind == GossipPush <==> e[0] == 0x01) && (m.kind == GossipPull <==> e[0] == 0x02)
            && (m.kind == GossipPushPull <==> e[0] == 0x03) && (m.kind == Heartbeat <==> e[0] == 0x04)
            && (m.kind == AntiEntropyReq <==> e[0] == 0x05) && (m.kind == AntiEntropyRes <==> e[0] == 0x06)
  {
    hide EncBody, TypedClock, TypedOps, Lists, ByteString;
  }

  /** And which one a reader takes it for. */
  lemma FirstByteRead(data: seq<Byte>)
    requires ReadMessage(data).Done?
    ensures data != []
    ensures var kind := ReadMessage(data).value.kind;
            && (kind == GossipPush <==> data[0] == 0x01) && (kind == GossipPull <==> data[0] == 0x02)
            && (kind == GossipPushPull <==> data[0] == 0x03) && (kind == Heartbeat <==> data[0] == 0x04)
            && (kind == AntiEntropyReq <==> data[0] == 0x05) && (kind == AntiEntropyRes <==> data[0] == 0x06)
  {
    hide Text, U32, ReadLooseBlock, ReadOps;
  }

  /** The first byte of an operation is 0 for an add and 1 for a cancel. */
  lemma OperationByte(op: Operation, keys: seq<Id>)
    requires TypedOp(op, keys)
    ensures var e := EncOp(op, keys);
            |e| >= 1 && (op.kind == AddOrder <==> e[0] == 0) && (op.kind == CancelOrder <==> e[0] == 1)
  {
    hide EncOrder, EncOpTail, TypedOrder, TypedClock, Lists, ByteString;
  }

  /** A 64-bit word is written as its high half followed by its low half, so most significant byte
      first throughout. */
  lemma WordOrder(high: nat, low: nat)
    requires high < TWO_32 && low < TWO_32
    ensures high * TWO_32 + low < TWO_64
    ensures EncU64(high * TWO_32 + low)
            == [high / 0x100_0000, high / 0x1_0000 % 256, high / 0x100 % 256, high % 256,
                low / 0x100_0000, low / 0x1_0000 % 256, low / 0x100 % 256, low % 256]
  {
    var v := high * TWO_32 + low;
    DivModUnique(v, high, low, TWO_32);
    NetworkOrder(high);
    NetworkOrder(low);
  }

  // ---- one message, byte by byte ----

  lemma ShortWord(v: nat)
    requires v < 0x1_0000
    ensures EncU64(v) == [0, 0, 0, 0, 0, 0, v / 256, v % 256] && EncCutU32(v) == [0, 0, v / 256, v % 256]
  {
    WordOrder(0, v);
    NetworkOrder(v);
  }

  lemma ShortText(s: string)
    requires |s| < 256 && ByteString(s)
    ensures EncString(s) == [0, |s|] + CharBytes(s)
  {
  }

  function SampleOrder(): Order {
    Order("ab", "n", Sell, 1.0, -2, 300, 5, true)
  }

  function SampleClock(): Clock {
    Clock("n", map["n" := 7])
  }

  function SampleOperation(): Operation {
    Operation(CancelOrder, SampleOrder(), "ab", "n", SampleClock(), "x")
  }

  lemma SampleTexts()
    ensures ByteString("ab") && ByteString("n") && ByteString("x")
    ensures EncString("ab") == [0, 2, 97, 98] && EncString("n") == [0, 1, 110] && EncString("x") == [0, 1, 120]
  {
    ShortText("ab");
    ShortText("n");
    ShortText("x");
  }

  lemma SampleTicks()
    ensures Ticks(1.0) == 10000
  {
    hide Round;
    WholeIsDouble(10000);
  }

  /** Order id, node id, side, ten-thousandths of the price, quantity, what remains, timestamp, and
      whether it is cancelled; a negative number in two's complement. */
  lemma OrderBytes()
    ensures TypedOrder(SampleOrder())
    ensures EncOrder(SampleOrder())
            == [0, 2, 97, 98] + [0, 1, 110] + [1]
             + [0, 0, 0, 0, 0, 0, 39, 16] + [255, 255, 255, 255, 255, 255, 255, 254]
             + [0, 0, 0, 0, 0, 0, 1, 44] + [0, 0, 0, 0, 0, 0, 0, 5] + [1]
  {
    hide EncU64, EncString, Ticks, ByteString;
    SampleTexts();
    SampleTicks();
    ShortWord(10000);
    ShortWord(300);
    ShortWord(5);
    WordOrder(0xFFFF_FFFF, 0xFFFF_FFFE);
  }

  lemma ClockBytes()
    ensures TypedClock(SampleClock()) && Lists(["n"], SampleClock().entries)
    ensures EncClock(SampleClock(), ["n"])
            == [0, 1, 110] + [0, 0, 0, 1] + [0, 1, 110] + [0, 0, 0, 0, 0, 0, 0, 7]
  {
    hide EncU64, EncString, EncCutU32, ByteString;
    SampleTexts();
    ShortWord(7);
    ShortWord(1);
    var entries := SampleClock().entries;
    assert ["n"][1..] == [] && EncEntries([], entries) == [];
    assert EncEntries(["n"], entries) == EncEntry("n", 7) + EncEntries(["n"][1..], entries);
  }

  lemma BlockBytes()
    ensures TypedClock(SampleClock()) && Lists(["n"], SampleClock().entries)
    ensures EncBlock(SampleClock(), ["n"])
            == [0, 0, 0, 18] + [0, 1, 110] + [0, 0, 0, 1] + [0, 1, 110] + [0, 0, 0, 0, 0, 0, 0, 7]
  {
    hide EncClock, EncCutU32, TypedClock, Lists, SampleClock;
    ClockBytes();
    ShortWord(18);
  }

  /** Kind, order, cancelled order, origin, the clock behind its length, and the operation id. */
  lemma OperationBytes()
    ensures TypedOp(SampleOperation(), ["n"]) && TypedOrder(SampleOrder())
    ensures EncOp(SampleOperation(), ["n"])
            == [1] + EncOrder(SampleOrder()) + [0, 2, 97, 98] + [0, 1, 110]
             + ([0, 0, 0, 18] + [0, 1, 110] + [0, 0, 0, 1] + [0, 1, 110] + [0, 0, 0, 0, 0, 0, 0, 7]) + [0, 1, 120]
  {
    hide EncOrder, EncBlock, EncString, ByteString, TypedOrder, TypedClock, Lists, SampleOrder, SampleClock;
    SampleTexts();
    OrderBytes();
    BlockBytes();
  }

  lemma OperationSize()
    ensures TypedOp(SampleOperation(), ["n"]) && |EncOp(SampleOperation(), ["n"])| == 74
  {
    hide EncOp, EncOrder, TypedOp, TypedOrder, SampleOperation, SampleOrder;
    OperationBytes();
    OrderBytes();
  }

  /** Sender, the clock behind its length, the number of operations, and each of them. */
  lemma BodyParts(m: Message, keys: seq<Id>, op: Operation)
    requires TypedOp(op, keys) && m.operations == [op] && ProperType(m.kind)
    requires ByteString(m.senderId) && TypedClock(m.senderClock) && Lists(keys, m.senderClock.entries)
    ensures TypedMessage(m, keys, [keys])
    ensures EncBody(m, keys, [keys])
            == EncString(m.senderId) + EncBlock(m.senderClock, keys) + [0, 0, 0, 1] + EncOp(op, keys)
  {
    hide EncOp, EncBlock, EncString, EncCutU32, EncOps, ByteString, TypedClock, Lists, TypedOp, TypedOps;
    ShortWord(1);
    OneOperation(op, keys);
  }

  /** Type, total length, and the body. */
  lemma MessageBytes()
    ensures var op := SampleOperation();
            var m := Message(GossipPush, "n", SampleClock(), [op]);
            && TypedOp(op, ["n"]) && TypedMessage(m, ["n"], [["n"]])
            && EncMessage(m, ["n"], [["n"]])
               == [1] + [0, 0, 0, 108] + ([0, 1, 110]
                + ([0, 0, 0, 18] + [0, 1, 110] + [0, 0, 0, 1] + [0, 1, 110] + [0, 0, 0, 0, 0, 0, 0, 7])
                + [0, 0, 0, 1] + EncOp(op, ["n"]))
  {
    hide EncOp, EncBlock, EncBody, EncString, EncCutU32, ByteString, TypedClock, Lists, TypedOp, TypedOps, SampleOperation, SampleClock;
    SampleTexts();
    OperationSize();
    BlockBytes();
    ShortWord(108);
    var op := SampleOperation();
    BodyParts(Message(GossipPush, "n", SampleClock(), [op]), ["n"], op);
  }

  lemma OneOperation(op: Operation, keys: seq<Id>)
    requires TypedOp(op, keys)
    ensures TypedOps([op], [keys]) && EncOps([op], [keys]) == EncOp(op, keys)
  {
    hide EncOp, TypedOp;
    assert [op][1..] == [] && [keys][1..] == [];
    assert EncOps([], []) == [];
    assert EncOps([op], [keys]) == EncOp(op, keys) + EncOps([op][1..], [keys][1..]);
  }
}
