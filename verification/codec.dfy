/** Byte strings, numbers and strings on the wire, and the outcome of reading them. */
module Wire {
  import opened Arithmetic
  import opened Types

  type Byte = x: nat | x < 256

  const TWO_16: nat := 0x1_0000
  const TWO_63: nat := 0x8000_0000_0000_0000
  const TWO_64: nat := 0x1_0000_0000_0000_0000

  /** Overrun is the reader's exception; Undefined is an unchecked read past the end. */
  datatype Parsed<+T> = Done(value: T, next: nat) | Overrun | Undefined {
    predicate IsFailure() {
      !Done?
    }

    function PropagateFailure<U>(): Parsed<U>
      requires IsFailure()
    {
      if Overrun? then Parsed<U>.Overrun else Parsed<U>.Undefined
    }

    function Extract(): Parsed<T>
      requires !IsFailure()
    {
      this
    }
  }

  /** Where reads are not checked, running past the end is undefined. */
  function Unchecked<T>(p: Parsed<T>): Parsed<T> {
    if p.Overrun? then Undefined else p
  }

  // ---- writing ----

  function EncU16(v: nat): (e: seq<Byte>)
    requires v < TWO_16
    ensures |e| == 2
  {
    [v / 256, v % 256]
  }

  function EncU32(v: nat): (e: seq<Byte>)
    requires v < TWO_32
    ensures |e| == 4
  {
    EncU16(v / TWO_16) + EncU16(v % TWO_16)
  }

  /** Lengths and counts keep the low 32 bits only. */
  function EncCutU32(v: nat): (e: seq<Byte>)
    ensures |e| == 4
  {
    EncU32(v % TWO_32)
  }

  function EncU64(v: nat): (e: seq<Byte>)
    requires v < TWO_64
    ensures |e| == 8
  {
    EncU32(v / TWO_32) + EncU32(v % TWO_32)
  }

  /** Characters are bytes. */
  predicate ByteString(s: string) {
    forall i | 0 <= i < |s| :: s[i] as int < 256
  }

  function CharBytes(s: string): (e: seq<Byte>)
    requires ByteString(s)
    ensures |e| == |s|
  {
    seq(|s|, i requires 0 <= i < |s| && ByteString(s) => s[i] as int)
  }

  /** The length prefix keeps the low 16 bits only. */
  function EncString(s: string): seq<Byte>
    requires ByteString(s)
  {
    EncU16(|s| % TWO_16) + CharBytes(s)
  }

  predicate Int64(v: int) {
    -(TWO_63 as int) <= v < TWO_63
  }

  /** Two's complement. */
  function EncInt64(v: int): (e: seq<Byte>)
    requires Int64(v)
    ensures |e| == 8
  {
    EncU64(if v < 0 then v + TWO_64 else v)
  }

  function AsInt64(v: nat): int {
    if v < TWO_63 then v else v - TWO_64
  }

  // ---- reading ----

  function U8(data: seq<Byte>, pos: nat): Parsed<Byte> {
    if pos + 1 > |data| then Overrun else Done(data[pos], pos + 1)
  }

  function Word16(data: seq<Byte>, pos: nat): (v: nat)
    requires pos + 2 <= |data|
    ensures v < TWO_16
  {
    var high: nat, low: nat := data[pos], data[pos + 1];
    high * 256 + low
  }

  function U16(data: seq<Byte>, pos: nat): Parsed<nat> {
    if pos + 2 > |data| then Overrun else Done(Word16(data, pos), pos + 2)
  }

  function U32(data: seq<Byte>, pos: nat): (p: Parsed<nat>)
    ensures p.Done? ==> p.value < TWO_32
  {
    if pos + 4 > |data| then Overrun else Done(Word16(data, pos) * TWO_16 + Word16(data, pos + 2), pos + 4)
  }

  function U64(data: seq<Byte>, pos: nat): (p: Parsed<nat>)
    ensures p.Done? ==> p.value < TWO_64
  {
    var high :- U32(data, pos);
    var low :- U32(data, high.next);
    Done(high.value * TWO_32 + low.value, low.next)
  }

  function BytesString(bytes: seq<Byte>): (s: string)
    ensures |s| == |bytes| && ByteString(s)
  {
    seq(|bytes|, i requires 0 <= i < |bytes| => bytes[i] as char)
  }

  function Text(data: seq<Byte>, pos: nat): Parsed<string> {
    var len :- U16(data, pos);
    if len.next + len.value > |data| then Overrun
    else Done(BytesString(data[len.next..len.next + len.value]), len.next + len.value)
  }

  // ---- network byte order ----

  lemma DivideTwice(v: nat, m: nat)
    requires m >= 1
    ensures v / 256 / m == v / (256 * m)
  {
    var q := v / 256 / m;
    assert v == 256 * (m * q + v / 256 % m) + v % 256 == q * (256 * m) + (256 * (v / 256 % m) + v % 256);
    DivModUnique(v, q, 256 * (v / 256 % m) + v % 256, 256 * m);
  }

  /** A 32-bit word is written byte by byte, the most significant first. */
  lemma NetworkOrder(v: nat)
    requires v < TWO_32
    ensures EncU32(v) == [v / 0x100_0000, v / 0x1_0000 % 256, v / 0x100 % 256, v % 256]
  {
    var high, low := v / TWO_16, v % TWO_16;
    DivideTwice(v, 256);
    DivideTwice(v, TWO_16);
    DivideTwice(v / 256, 256);
    var mid := v / 256;
    assert v == TWO_16 * (mid / 256) + (256 * (mid % 256) + v % 256);
    DivModUnique(v, mid / 256, 256 * (mid % 256) + v % 256, TWO_16);
    DivModUnique(low, mid % 256, v % 256, 256);
  }

  // ---- what was written is read back ----

  /** The encoding e stands in data at pos. */
  ghost predicate Holds(data: seq<Byte>, pos: nat, e: seq<Byte>) {
    pos + |e| <= |data| && data[pos..pos + |e|] == e
  }

  lemma HoldsParts(data: seq<Byte>, pos: nat, a: seq<Byte>, b: seq<Byte>)
    requires Holds(data, pos, a + b)
    ensures Holds(data, pos, a) && Holds(data, pos + |a|, b)
  {
    assert data[pos..pos + |a|] == (a + b)[..|a|];
    assert data[pos + |a|..pos + |a| + |b|] == (a + b)[|a|..];
  }

  lemma HoldsThree(data: seq<Byte>, pos: nat, a: seq<Byte>, b: seq<Byte>, c: seq<Byte>)
    requires Holds(data, pos, a + (b + c))
    ensures Holds(data, pos, a) && Holds(data, pos + |a|, b) && Holds(data, pos + |a| + |b|, c)
    ensures |a + (b + c)| == |a| + |b| + |c|
  {
    hide Holds;
    HoldsParts(data, pos, a, b + c);
    HoldsParts(data, pos + |a|, b, c);
  }

  lemma U16Back(data: seq<Byte>, pos: nat, v: nat)
    requires v < TWO_16 && Holds(data, pos, EncU16(v))
    ensures U16(data, pos) == Done(v, pos + 2)
  {
    assert data[pos..pos + 2][0] == v / 256 && data[pos..pos + 2][1] == v % 256;
  }

  lemma U32Back(data: seq<Byte>, pos: nat, v: nat)
    requires v < TWO_32 && Holds(data, pos, EncU32(v))
    ensures U32(data, pos) == Done(v, pos + 4)
  {
    HoldsParts(data, pos, EncU16(v / TWO_16), EncU16(v % TWO_16));
    U16Back(data, pos, v / TWO_16);
    U16Back(data, pos + 2, v % TWO_16);
  }

  lemma U64Back(data: seq<Byte>, pos: nat, v: nat)
    requires v < TWO_64 && Holds(data, pos, EncU64(v))
    ensures U64(data, pos) == Done(v, pos + 8)
  {
    HoldsParts(data, pos, EncU32(v / TWO_32), EncU32(v % TWO_32));
    U32Back(data, pos, v / TWO_32);
    U32Back(data, pos + 4, v % TWO_32);
  }

  /** Signed 64-bit numbers survive the trip through unsigned words. */
  lemma Int64Back(data: seq<Byte>, pos: nat, v: int)
    requires Int64(v) && Holds(data, pos, EncInt64(v))
    ensures U64(data, pos).Done? && AsInt64(U64(data, pos).value) == v && U64(data, pos).next == pos + 8
  {
    hide U64, EncU64;
    U64Back(data, pos, if v < 0 then v + TWO_64 else v);
  }

  lemma CharsBack(s: string)
    requires ByteString(s)
    ensures BytesString(CharBytes(s)) == s
  {
  }

  /** A string comes back cut to its length modulo 2^16, so it comes back whole if and only if it
      is shorter than that. */
  lemma StringBack(data: seq<Byte>, pos: nat, s: string)
    requires ByteString(s) && Holds(data, pos, EncString(s))
    ensures Text(data, pos) == Done(s[..|s| % TWO_16], pos + 2 + |s| % TWO_16)
    ensures Text(data, pos) == Done(s, pos + |EncString(s)|) <==> |s| < TWO_16
  {
    var n := |s| % TWO_16;
    HoldsParts(data, pos, EncU16(n), CharBytes(s));
    U16Back(data, pos, n);
    var from := pos + 2;
    assert data[from..from + n] == data[from..from + |s|][..n];
    assert BytesString(data[from..from + n]) == BytesString(CharBytes(s))[..n];
    CharsBack(s);
  }

  lemma ShortStringBack(data: seq<Byte>, pos: nat, s: string)
    requires ByteString(s) && |s| < TWO_16 && Holds(data, pos, EncString(s))
    ensures Text(data, pos) == Done(s, pos + |EncString(s)|)
  {
    hide Text, EncString, Holds, ByteString;
    StringBack(data, pos, s);
  }

  /** A number cut to 32 bits is read back, whatever it is. */
  lemma CutU32Back(data: seq<Byte>, pos: nat, v: nat)
    requires Holds(data, pos, EncCutU32(v))
    ensures U32(data, pos).Done? && U32(data, pos).next == pos + 4
    ensures v < TWO_32 ==> U32(data, pos).value == v
  {
    hide U32, EncU32, Holds;
    U32Back(data, pos, v % TWO_32);
  }
}
