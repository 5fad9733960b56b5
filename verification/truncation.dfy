/** Reading is stable under appending bytes, so no cut encoding is ever taken for a message. */
module Truncation {
  import opened Types
  import opened VectorClocks
  import opened PriceWire
  import opened Wire
  import opened ClockCodec
  import opened MessageCodec

  /** A finished read of data stays as it is when bytes follow, and ends within data. */
  predicate Stable<T(==)>(data: seq<Byte>, short: Parsed<T>, long: Parsed<T>) {
    short.Done? ==> long == short && short.next <= |data|
  }

  lemma StableNumber(data: seq<Byte>, more: seq<Byte>, pos: nat)
    ensures Stable(data, U8(data, pos), U8(data + more, pos))
    ensures Stable(data, U16(data, pos), U16(data + more, pos))
    ensures Stable(data, U32(data, pos), U32(data + more, pos))
  {
  }

  lemma StableU64(data: seq<Byte>, more: seq<Byte>, pos: nat)
    ensures Stable(data, U64(data, pos), U64(data + more, pos))
  {
    hide U32;
    StableNumber(data, more, pos);
    if U32(data, pos).Done? { StableNumber(data, more, U32(data, pos).next); }
  }

  lemma StableText(data: seq<Byte>, more: seq<Byte>, pos: nat)
    ensures Stable(data, Text(data, pos), Text(data + more, pos))
  {
    hide U16;
    StableNumber(data, more, pos);
    if Text(data, pos).Done? {
      var len := U16(data, pos);
      assert (data + more)[len.next..len.next + len.value] == data[len.next..len.next + len.value];
    }
  }

  lemma {:induction false} StableEntries(data: seq<Byte>, more: seq<Byte>, pos: nat, count: nat, acc: Entries)
    requires pos <= |data|
    ensures Stable(data, ReadEntries(data, pos, count, acc), ReadEntries(data + more, pos, count, acc))
    decreases count
  {
    hide Text, U64;
    if count > 0 && Text(data, pos).Done? {
      StableText(data, more, pos);
      var key := Text(data, pos);
      if U64(data, key.next).Done? {
        StableU64(data, more, key.next);
        var v := U64(data, key.next);
        StableEntries(data, more, v.next, count - 1, acc[key.value := v.value]);
      }
    }
  }

  lemma StableClock(data: seq<Byte>, more: seq<Byte>, pos: nat)
    ensures Stable(data, ReadClock(data, pos), ReadClock(data + more, pos))
  {
    hide Text, U32, ReadEntries;
    StableText(data, more, pos);
    if Text(data, pos).Done? {
      var id := Text(data, pos);
      StableNumber(data, more, id.next);
      if U32(data, id.next).Done? {
        var count := U32(data, id.next);
        StableEntries(data, more, count.next, count.value, NewEntries(id.value));
      }
    }
  }

  lemma StableBlocks(data: seq<Byte>, more: seq<Byte>, pos: nat)
    ensures Stable(data, ReadCheckedBlock(data, pos), ReadCheckedBlock(data + more, pos))
    ensures Stable(data, ReadLooseBlock(data, pos), ReadLooseBlock(data + more, pos))
  {
    hide U32, ReadClock;
    StableNumber(data, more, pos);
    if U32(data, pos).Done? { StableClock(data, more, U32(data, pos).next); }
  }

  lemma StableNumbers(data: seq<Byte>, more: seq<Byte>, pos: nat)
    ensures Stable(data, ReadNumbers(data, pos), ReadNumbers(data + more, pos))
  {
    hide U64, U8, FromTicks, AsInt64;
    StableU64(data, more, pos);
    if U64(data, pos).Done? {
      var p := U64(data, pos).next;
      StableU64(data, more, p);
      if U64(data, p).Done? {
        var q := U64(data, p).next;
        StableU64(data, more, q);
        if U64(data, q).Done? {
          StableU64(data, more, U64(data, q).next);
          if U64(data, U64(data, q).next).Done? {
            StableNumber(data, more, U64(data, U64(data, q).next).next);
          }
        }
      }
    }
  }

  lemma StableOrder(data: seq<Byte>, more: seq<Byte>, pos: nat)
    ensures Stable(data, ReadOrder(data, pos), ReadOrder(data + more, pos))
  {
    hide Text, U8, ReadNumbers;
    StableText(data, more, pos);
    if Text(data, pos).Done? {
      var p := Text(data, pos).next;
      StableText(data, more, p);
      if Text(data, p).Done? {
        StableNumber(data, more, Text(data, p).next);
        if U8(data, Text(data, p).next).Done? {
          StableNumbers(data, more, U8(data, Text(data, p).next).next);
        }
      }
    }
  }

  lemma StableOp(data: seq<Byte>, more: seq<Byte>, pos: nat)
    ensures Stable(data, ReadOp(data, pos), ReadOp(data + more, pos))
  {
    hide Text, U8, ReadOrder, ReadCheckedBlock, KindOfOp;
    StableNumber(data, more, pos);
    if U8(data, pos).Done? {
      StableOrder(data, more, U8(data, pos).next);
      if ReadOrder(data, U8(data, pos).next).Done? {
        var p := ReadOrder(data, U8(data, pos).next).next;
        StableText(data, more, p);
        if Text(data, p).Done? {
          var q := Text(data, p).next;
          StableText(data, more, q);
          if Text(data, q).Done? {
            StableBlocks(data, more, Text(data, q).next);
            if ReadCheckedBlock(data, Text(data, q).next).Done? {
              StableText(data, more, ReadCheckedBlock(data, Text(data, q).next).next);
            }
          }
        }
      }
    }
  }

  lemma {:induction false} StableOps(data: seq<Byte>, more: seq<Byte>, pos: nat, count: nat)
    requires pos <= |data|
    ensures Stable(data, ReadOps(data, pos, count), ReadOps(data + more, pos, count))
    decreases count
  {
    hide ReadOp;
    if count > 0 {
      StableOp(data, more, pos);
      if ReadOp(data, pos).Done? { StableOps(data, more, ReadOp(data, pos).next, count - 1); }
    }
  }

  /** A message once read is read the same whatever bytes follow it. */
  lemma StableMessage(data: seq<Byte>, more: seq<Byte>)
    ensures Stable(data, ReadMessage(data), ReadMessage(data + more))
  {
    hide Text, U8, U32, ReadLooseBlock, ReadOps, TypeOf;
    StableNumber(data, more, 0);
    if U8(data, 0).Done? {
      var p := U8(data, 0).next;
      StableNumber(data, more, p);
      if U32(data, p).Done? {
        var q := U32(data, p).next;
        StableText(data, more, q);
        if Text(data, q).Done? {
          StableBlocks(data, more, Text(data, q).next);
          if ReadLooseBlock(data, Text(data, q).next).Done? {
            var s := ReadLooseBlock(data, Text(data, q).next).next;
            StableNumber(data, more, s);
            if U32(data, s).Done? { StableOps(data, more, U32(data, s).next, U32(data, s).value); }
          }
        }
      }
    }
  }

  /** No proper prefix of an encoded message decodes to anything: a datagram cut short is refused
      or undefined, never mistaken for a smaller message. */
  lemma CutEncodingNeverDecodes(m: Message, keys: seq<Id>, orders: seq<seq<Id>>, k: nat)
    requires TypedMessage(m, keys, orders) && SizedMessage(m, keys, orders) && k < |EncMessage(m, keys, orders)|
    ensures !ReadMessage(EncMessage(m, keys, orders)[..k]).Done?
  {
    hide *;
    var e := EncMessage(m, keys, orders);
    MessageBack(m, keys, orders, []);
    assert e + [] == e && e[..k] + e[k..] == e;
    StableMessage(e[..k], e[k..]);
    StableMeans(e[..k], ReadMessage(e[..k]), ReadMessage(e));
  }

  lemma StableMeans<T>(data: seq<Byte>, short: Parsed<T>, long: Parsed<T>)
    requires Stable(data, short, long)
    ensures short.Done? ==> long == short && short.next <= |data|
  {
  }
}
