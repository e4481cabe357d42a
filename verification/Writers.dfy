/** The wire format writer: operations on a linked list, forked states on a stack, and
    one pass at the end that fills a buffer of the exact size. */
module Writers {
  import opened Bits
  import opened Buffers
  import opened Varints
  import opened Long
  import opened Utf8Codec

  /** A scheduled write: the function to call and its value. */
  datatype Action =
    | Noop
    | WriteByte(n: u32)
    | WriteVarint32(n: u32)
    | WriteVarint64(bits: LongBits)
    | WriteFixed32(n: u32)
    | WriteBytes(bytes: seq<byte>)
    | WriteUtf8(text: units)

  function Fixed32Bytes(n: u32): (r: seq<byte>)
    ensures |r| == 4
  {
    [n % 0x100, n / 0x100 % 0x100, n / 0x1_0000 % 0x100, n / 0x100_0000]
  }

  function Fixed64Bytes(n: nat): (r: seq<byte>)
    requires n < TWO64
    ensures |r| == 8
  {
    Fixed32Bytes(n % TWO32) + Fixed32Bytes(n / TWO32)
  }

  /** The 64-bit value an action owns. */
  ghost function Owned(a: Action): (r: set<LongBits>) {
    if a.WriteVarint64? then {a.bits} else {}
  }

  /** What an action without a 64-bit value writes. */
  function Constant(a: Action): (r: seq<byte>)
    requires !a.WriteVarint64?
  {
    match a
    case Noop => []
    case WriteByte(n) => [n % 0x100]
    case WriteVarint32(n) => Varint(n)
    case WriteFixed32(n) => Fixed32Bytes(n)
    case WriteBytes(bytes) => bytes
    case WriteUtf8(text) => Utf8(text)
  }

  /** What an action writes in the present state of its value. */
  ghost function Output(a: Action): (r: seq<byte>)
    reads Owned(a)
  {
    if a.WriteVarint64? then Varint(a.bits.Value()) else Constant(a)
  }

  lemma LowSeven(n: nat)
    ensures Or(And(n, 127), 128) == n % 128 + 128 && Shr(n, 7) == n / 128
  {
    FirstPower();
    hide Or, And, Shr;
    AndOnes(n, 7);
    OrDisjoint(n % 128, 128, 7);
    Shifts(n, 7, 128);
  }

  lemma FirstPower()
    ensures Pow2(7) == 128
  {}

  lemma VarintParts(n: nat)
    ensures if n < 128 then Varint(n) == [n] + [] else Varint(n) == [n % 128 + 128] + Varint(n / 128)
  {}

  method Varint32(val: u32, buf: array<byte>, pos: nat)
    requires pos + |Varint(val)| <= buf.Length
    modifies buf
    ensures buf[..] == old(buf[..pos]) + Varint(val) + old(buf[pos + |Varint(val)|..])
  {
    hide *;
    var v: nat, p := val, pos;
    ghost var all, x, y := Varint(val), buf[..pos], buf[pos..];
    WrittenNone(buf[..], all, pos);
    while v > 127
      invariant pos <= p && p - pos <= |all| && Varint(v) == all[p - pos..]
      invariant Written(buf[..], x, all, y, p - pos)
    {
      LowSeven(v);
      VarintParts(v);
      StoreNext(buf, p, Or(And(v, 127), 128), x, all, y, p - pos, Varint(v / 128));
      p := p + 1;
      v := Shr(v, 7);
    }
    VarintParts(v);
    StoreNext(buf, p, v, x, all, y, p - pos, []);
    WrittenAll(buf[..], x, all, y);
  }

  lemma NextSeven(lo: u32, hi: u32)
    ensures Or(Shr(lo, 7), Shl(hi, 25)) == lo / 128 + hi % 128 * 0x200_0000
    ensures lo / 128 + hi % 128 * 0x200_0000 < TWO32 && Shr(hi, 7) == hi / 128
    ensures Or(And(lo, 127), 128) == (lo + hi * TWO32) % 128 + 128
    ensures lo / 128 + hi % 128 * 0x200_0000 + hi / 128 * TWO32 == (lo + hi * TWO32) / 128
  {
    FirstPower();
    Power25();
    hide Or, And, Shr, Shl, Pow2, TWO32;
    LowSeven(lo);
    Shifts(hi, 7, 128);
    Shifts(hi, 25, 0x200_0000);
    NextSevenValue(lo, hi);
    var l, h := lo / 128, hi % 128 * 0x200_0000;
    assert l < 0x200_0000 && h % 0x200_0000 == 0;
    OrDisjoint(l, h, 25);
  }

  lemma Power25()
    ensures Pow2(25) == 0x200_0000
  {
    FirstPower();
    assert Pow2(4) == 16;
    hide Pow2;
    Pow2Add(7, 7);
    Pow2Add(14, 7);
    Pow2Add(21, 4);
  }

  lemma NextSevenValue(lo: u32, hi: u32)
    ensures hi * 0x200_0000 % TWO32 == hi % 128 * 0x200_0000
    ensures (lo + hi * TWO32) % 128 == lo % 128
    ensures lo / 128 + hi % 128 * 0x200_0000 < TWO32
    ensures lo / 128 + hi % 128 * 0x200_0000 + hi / 128 * TWO32 == (lo + hi * TWO32) / 128
  {}

  /** Shifts val in place while writing; what is left of it is its last group. */
  method Varint64(val: LongBits, buf: array<byte>, pos: nat)
    requires pos + |Varint(val.Value())| <= buf.Length
    modifies val, buf
    ensures var w := old(Varint(val.Value()));
            && buf[..] == old(buf[..pos]) + w + old(buf[pos + |w|..])
            && val.Value() == w[|w| - 1] && Varint(val.Value()) == [w[|w| - 1]]
  {
    hide Varint, Or, And, Shr, Shl, Written, Pow2, LongBits.Value;
    var p := pos;
    ghost var all, x, y := Varint(val.Value()), buf[..pos], buf[pos..];
    WrittenNone(buf[..], all, pos);
    while val.hi != 0
      invariant pos <= p && Written(buf[..], x, all, y, p - pos)
      invariant p - pos <= |all| && Varint(val.Value()) == all[p - pos..]
      decreases val.Value()
    {
      HighPart(val);
      StoreLow(val, buf, p, x, all, y);
      ShiftSeven(val);
      p := p + 1;
    }
    LowOnly(val);
    while val.lo > 127
      invariant val.hi == 0 && val.Value() == val.lo
      invariant pos <= p && Written(buf[..], x, all, y, p - pos)
      invariant p - pos <= |all| && Varint(val.Value()) == all[p - pos..]
      decreases val.lo
    {
      StoreLow(val, buf, p, x, all, y);
      LowSeven(val.lo);
      val.lo := Shr(val.lo, 7);
      LowOnly(val);
      p := p + 1;
    }
    VarintParts(val.lo);
    StoreNext(buf, p, val.lo, x, all, y, p - pos, []);
    WrittenAll(buf[..], x, all, y);
  }

  /** `val.lo = (val.lo >>> 7 | val.hi << 25) >>> 0; val.hi >>>= 7` */
  method ShiftSeven(val: LongBits)
    modifies val
    ensures val.Value() == old(val.Value()) / 128
  {
    hide Or, And, Shr, Shl;
    NextSeven(val.lo, val.hi);
    val.lo, val.hi := Or(Shr(val.lo, 7), Shl(val.hi, 25)), Shr(val.hi, 7);
  }

  lemma LowOnly(val: LongBits)
    ensures val.hi == 0 ==> val.Value() == val.lo
  {}

  lemma HighPart(val: LongBits)
    ensures val.hi != 0 ==> val.Value() >= TWO32
  {}

  /** `buf[pos] = val.lo & 127 | 128` */
  method StoreLow(val: LongBits, buf: array<byte>, pos: nat, ghost x: seq<byte>, ghost all: seq<byte>, ghost y: seq<byte>)
    requires val.Value() >= 128 && |x| <= pos && Written(buf[..], x, all, y, pos - |x|)
    requires pos - |x| <= |all| && Varint(val.Value()) == all[pos - |x|..]
    modifies buf
    ensures Written(buf[..], x, all, y, pos - |x| + 1)
    ensures pos - |x| + 1 <= |all| && Varint(val.Value() / 128) == all[pos - |x| + 1..]
  {
    hide Varint, Or, And, Shr, Shl, Written;
    NextSeven(val.lo, val.hi);
    VarintParts(val.Value());
    StoreNext(buf, pos, Or(And(val.lo, 127), 128), x, all, y, pos - |x|, Varint(val.Value() / 128));
  }

  method WriteFixed(val: u32, buf: array<byte>, pos: nat)
    requires pos + 4 <= buf.Length
    modifies buf
    ensures buf[..] == old(buf[..pos]) + Fixed32Bytes(val) + old(buf[pos + 4..])
  {
    hide And, Shr;
    FixedParts(val);
    Put(buf, pos, [And(val, 255), And(Shr(val, 8), 255), And(Shr(val, 16), 255), Shr(val, 24)]);
  }

  lemma FixedParts(val: u32)
    ensures [And(val, 255), And(Shr(val, 8), 255), And(Shr(val, 16), 255), Shr(val, 24)] == Fixed32Bytes(val)
  {
    SmallPowers();
    hide And, Shr, Pow2;
    Pow2Add(8, 8);
    Pow2Add(16, 8);
    Shifts(val, 8, 0x100);
    Shifts(val, 16, 0x1_0000);
    Shifts(val, 24, 0x100_0000);
    AndOnes(val, 8);
    AndOnes(val / 0x100, 8);
    AndOnes(val / 0x1_0000, 8);
  }

  /** What an action writes once more after it has been carried out: a 64-bit value has
      been shifted down to its last group. */
  ghost function Leftover(a: Action): (r: seq<byte>)
    reads Owned(a)
  {
    if a.WriteVarint64? then [Output(a)[|Output(a)| - 1]] else Output(a)
  }

  /** `head.fn(head.val, buf, pos)` */
  method Execute(a: Action, buf: array<byte>, pos: nat)
    requires pos + |Output(a)| <= buf.Length
    modifies buf, Owned(a)
    ensures buf[..] == old(buf[..pos]) + old(Output(a)) + old(buf[pos + |Output(a)|..])
    ensures Output(a) == old(Leftover(a))
  {
    hide Varint, Utf8, Fixed32Bytes;
    match a
    case Noop => assert buf[..] == buf[..pos] + [] + buf[pos..];
    case WriteByte(n) => Put(buf, pos, [n % 0x100]);
    case WriteVarint32(n) => Varint32(n, buf, pos);
    case WriteVarint64(bits) =>
      Varint64(bits, buf, pos);
    case WriteFixed32(n) => WriteFixed(n, buf, pos);
    case WriteBytes(bytes) => Put(buf, pos, bytes);
    case WriteUtf8(text) => var n := Utf8Codec.Write(text, buf, pos);
  }

  class Op {
    const action: Action
    const len: nat
    ghost const bytes: seq<byte>  // what it is to write
    var next: Op?

    constructor (action: Action, len: nat, ghost bytes: seq<byte>)
      ensures this.action == action && this.len == len && this.bytes == bytes && next == null
    {
      this.action, this.len, this.bytes := action, len, bytes;
      next := null;
    }
  }

  /** A writer state put aside by a fork. */
  class State {
    const head: Op
    const tail: Op
    const len: nat
    const next: State?

    constructor (head: Op, tail: Op, len: nat, next: State?)
      ensures this.head == head && this.tail == tail && this.len == len && this.next == next
    {
      this.head, this.tail, this.len, this.next := head, tail, len, next;
    }
  }

  /** The bytes that the operations from a until b are to write. */
  ghost function Bytes(ops: seq<Op>, a: nat, b: nat): (r: seq<byte>)
    requires b <= |ops|
    decreases b
  {
    if a >= b then [] else Bytes(ops, a, b - 1) + ops[b - 1].bytes
  }

  lemma {:induction false} BytesMatch(ops: seq<Op>, ops': seq<Op>, a: nat, b: nat, shift: nat)
    requires a <= b <= |ops| && b + shift <= |ops'| && ops[a..b] == ops'[a + shift..b + shift]
    ensures Bytes(ops, a, b) == Bytes(ops', a + shift, b + shift)
    decreases b
  {
    if a < b {
      assert ops[a..b][..b - 1 - a] == ops[a..b - 1];
      assert ops'[a + shift..b + shift][..b - 1 - a] == ops'[a + shift..b - 1 + shift];
      assert ops[b - 1] == ops[a..b][b - 1 - a] == ops'[a + shift..b + shift][b - 1 - a] == ops'[b + shift - 1];
      BytesMatch(ops, ops', a, b - 1, shift);
    }
  }

  lemma {:induction false} BytesSplit(ops: seq<Op>, a: nat, m: nat, b: nat)
    requires a <= m <= b <= |ops|
    ensures Bytes(ops, a, b) == Bytes(ops, a, m) + Bytes(ops, m, b)
    decreases b
  {
    if m < b {
      BytesSplit(ops, a, m, b - 1);
    }
  }

  /** stack with bytes written at its top. */
  function Extended(stack: seq<seq<byte>>, bytes: seq<byte>): (r: seq<seq<byte>>)
    requires |stack| >= 1
    ensures |r| == |stack|
  {
    stack[..|stack| - 1] + [stack[|stack| - 1] + bytes]
  }

  class Writer {
    var len: nat
    var head: Op
    var tail: Op
    var states: State?
    const zero: LongBits

    ghost var all: seq<Op>          // every operation, the forked ones after those put aside
    ghost var starts: seq<nat>      // where in all each state's list begins
    ghost var frames: seq<State>    // the states put aside, outermost first
    ghost var stack: seq<seq<byte>> // the bytes of each state, outermost first
    ghost var Repr: set<object>

    /** The operations are distinct, linked within each state and not beyond it. */
    ghost predicate Ops()
      reads this, Repr
    {
      && this in Repr && zero in Repr && zero.Value() == 0
      && (forall i :: 0 <= i < |all| ==> all[i] in Repr && |all[i].bytes| == all[i].len)
      && Distinct(all)
      && (forall i {:trigger all[i].next} :: 0 <= i < |all| ==>
            all[i].next == if i + 1 < |all| && i + 1 !in starts then all[i + 1] else null)
    }

    /** 64-bit values are inside the footprint, and shared only by operations that write 0. */
    ghost predicate Longs(ops: seq<Op>)
      reads this, Repr
    {
      && (forall i :: 0 <= i < |ops| ==> Uses(ops[i]) <= Repr)
      && (forall i, b :: 0 <= i < |ops| && b in Uses(ops[i]) ==> |Varint(b.Value())| <= ops[i].len)
      && (forall i, j, b :: 0 <= i < j < |ops| && b in Uses(ops[i]) && b in Uses(ops[j]) ==> b.Value() == 0)
      && (forall i :: 0 <= i < |ops| && Uses(ops[i]) == {} ==> Plain(ops[i]))
    }

    /** The states put aside and the present one partition the operations. */
    ghost predicate States()
      reads this
    {
      Partition(all, starts, stack) && Chain(all, starts, stack, frames, states)
      && head == all[starts[|starts| - 1]] && tail == all[|all| - 1] && len == |stack[|stack| - 1]|
    }

    ghost predicate Valid()
      reads this, Repr
    {
      Ops() && Longs(all) && States()
    }

    /** No 64-bit value has been consumed by a finish yet. */
    ghost predicate Unspent(ops: seq<Op>)
      reads this, Repr
    {
      Longs(ops) && forall i, b :: 0 <= i < |ops| && b in Uses(ops[i]) ==> Varint(b.Value()) == ops[i].bytes
    }

    ghost predicate Fresh()
      reads this, Repr
    {
      Unspent(all)
    }

    constructor (zero: LongBits)
      requires zero.Value() == 0
      ensures Valid() && Fresh() && stack == [[]]
      ensures fresh(Repr - {zero}) && |all| == 1 && starts == [0]
    {
      this.zero := zero;
      len, states := 0, null;
      var op := new Op(Noop, 0, []);
      head, tail := op, op;
      all, starts, frames, stack := [op], [0], [], [[]];
      Repr := {this, op, zero};
      new;
      hide Bytes, Varint, Output, Partition, Chain;
      FirstPartition(op);
      WritesNothing(op.action);
    }

    lemma OpsFacts()
      requires Valid()
      ensures zero.Value() == 0 && zero in Repr && this in Repr && |all| >= 1
      ensures forall i :: 0 <= i < |all| ==> all[i] in Repr && (all[i] == tail ==> i == |all| - 1)
      ensures tail.next == null
    {
      hide Bytes;
    }

    method Push(action: Action, n: nat, ghost bytes: seq<byte>)
      requires Valid() && |bytes| == n && Output(action) == bytes
      requires action.WriteVarint64? ==> action.bits == zero || action.bits !in Repr
      modifies this, tail
      ensures Valid() && stack == Extended(old(stack), bytes)
      ensures old(Fresh()) ==> Fresh()
      ensures fresh(tail) && Repr == old(Repr) + {tail} + Uses(tail)
      ensures all == old(all) + [tail] && starts == old(starts) && frames == old(frames)
      ensures tail.action == action && tail.bytes == bytes
    {
      hide Bytes, Output, Varint, Partition, Chain, Fresh, Ops, Longs, Distinct, Unspent, FrameHolds;
      OpsFacts();
      var op := new Op(action, n, bytes);
      StartsBelow(all, starts, stack);
      ChainExtended(all, starts, stack, frames, states, [op]);
      OneBytes(op);
      tail.next := op;
      tail := op;
      len := len + n;
      Repr := Repr + {op} + Uses(op);
      all := all + [op];
      stack := Extended(stack, bytes);
      OpsPushed(op);
      LongsPushed(op);
    }

    /** The length of a varint is known before it is written. */
    method UInt32(value: int)
      requires Valid()
      modifies this, tail
      ensures Valid() && stack == Extended(old(stack), Varint(ToUint32(value)))
      ensures old(Fresh()) ==> Fresh()
      ensures fresh(tail) && Repr == old(Repr) + {tail}
      ensures all == old(all) + [tail] && starts == old(starts) && frames == old(frames) && Plain(tail)
    {
      hide Valid, Fresh, Varint, Extended;
      var v := ToUint32(value);
      SmallLengths(v);
      var n := if v < 128 then 1 else if v < 16384 then 2 else if v < 2097152 then 3
               else if v < 268435456 then 4 else 5;
      Push(WriteVarint32(v), n, Varint(v));
    }

    lemma ZeroIsZero()
      requires Valid()
      ensures zero.lo == 0 && zero.hi == 0 && zero in Repr && this in Repr && tail in Repr && |stack| >= 1
    {
      hide Longs, Chain, Bytes;
    }

    method Int32(value: int)
      requires Valid() && -0x8000_0000 <= value < 0x8000_0000
      modifies this, tail
      ensures Valid() && stack == Extended(old(stack), Varint(value % TWO64))
      ensures old(Fresh()) ==> Fresh()
      ensures fresh(Repr - old(Repr)) && old(Repr) <= Repr && fresh(tail) && frames == old(frames)
    {
      hide Valid, Fresh, Varint, Extended;
      if value < 0 {
        ZeroIsZero();
        var bits := LongBits.FromNumber(value, zero);
        TenByteLength(value % TWO64);
        Push(WriteVarint64(bits), 10, Varint(value % TWO64));
      } else {
        UInt32(value);
      }
    }

    method SInt32(value: int)
      requires Valid() && -0x8000_0000 <= value < 0x8000_0000
      modifies this, tail
      ensures Valid() && stack == Extended(old(stack), Varint(ZigZag(value)))
      ensures old(Fresh()) ==> Fresh()
      ensures fresh(Repr - old(Repr)) && old(Repr) <= Repr && fresh(tail) && frames == old(frames)
    {
      hide Valid, Fresh, Varint, Extended;
      var z := ZzEncode32(value);
      UInt32(z);
    }

    /** uint64 and int64: any integer, as its 64-bit pattern. */
    method Int64(value: int)
      requires Valid()
      modifies this, tail
      ensures Valid() && stack == Extended(old(stack), Varint(value % TWO64))
      ensures old(Fresh()) ==> Fresh()
      ensures fresh(Repr - old(Repr)) && old(Repr) <= Repr && fresh(tail) && frames == old(frames)
      ensures all == old(all) + [tail] && starts == old(starts) && tail.action.WriteVarint64?
    {
      hide Valid, Fresh, Varint, Extended;
      ZeroIsZero();
      var bits := LongBits.FromNumber(value, zero);
      var n := bits.Length();
      Push(WriteVarint64(bits), n, Varint(value % TWO64));
    }

    method SInt64(value: int)
      requires Valid()
      modifies this, tail
      ensures Valid() && stack == Extended(old(stack), Varint(ZigZag(Signed64(value % TWO64))))
      ensures old(Fresh()) ==> Fresh()
      ensures fresh(Repr - old(Repr)) && old(Repr) <= Repr && fresh(tail) && frames == old(frames)
    {
      hide Valid, Fresh, Varint, Extended;
      ZeroIsZero();
      var bits := LongBits.FromNumber(value, zero);
      if value != 0 {
        bits.ZzEncode();
      }
      var n := bits.Length();
      Push(WriteVarint64(bits), n, Varint(bits.Value()));
    }

    method Bool(value: bool)
      requires Valid()
      modifies this, tail
      ensures Valid() && stack == Extended(old(stack), [if value then 1 else 0])
      ensures old(Fresh()) ==> Fresh()
      ensures fresh(Repr - old(Repr)) && old(Repr) <= Repr && fresh(tail) && frames == old(frames)
    {
      hide Valid, Fresh, Extended;
      Push(WriteByte(if value then 1 else 0), 1, [if value then 1 else 0]);
    }

    method Fixed32(value: int)
      requires Valid()
      modifies this, tail
      ensures Valid() && stack == Extended(old(stack), Fixed32Bytes(ToUint32(value)))
      ensures old(Fresh()) ==> Fresh()
      ensures fresh(Repr - old(Repr)) && old(Repr) <= Repr && fresh(tail) && frames == old(frames)
    {
      hide Valid, Fresh, Extended, Fixed32Bytes;
      Push(WriteFixed32(ToUint32(value)), 4, Fixed32Bytes(ToUint32(value)));
    }

    method Fixed64(value: int)
      requires Valid()
      modifies this, tail
      ensures Valid() && stack == Extended(old(stack), Fixed64Bytes(value % TWO64))
      ensures old(Fresh()) ==> Fresh()
      ensures fresh(Repr - old(Repr)) && old(Repr) <= Repr && fresh(tail) && frames == old(frames)
    {
      hide Valid, Fresh, Fixed32Bytes;
      ZeroIsZero();
      var bits := LongBits.FromNumber(value, zero);
      var lo, hi := bits.lo, bits.hi;
      assert lo == value % TWO64 % TWO32 && hi == value % TWO64 / TWO32;
      Push(WriteFixed32(lo), 4, Fixed32Bytes(lo));
      Push(WriteFixed32(hi), 4, Fixed32Bytes(hi));
      ExtendedTwice(old(stack), Fixed32Bytes(lo), Fixed32Bytes(hi));
    }

    /** The four or eight bytes of a float or a double. */
    method Raw(value: seq<byte>)
      requires Valid()
      modifies this, tail
      ensures Valid() && stack == Extended(old(stack), value)
      ensures old(Fresh()) ==> Fresh()
      ensures fresh(Repr - old(Repr)) && old(Repr) <= Repr && fresh(tail) && frames == old(frames)
    {
      hide Valid, Fresh, Extended;
      Push(WriteBytes(value), |value|, value);
    }

    method BytesField(value: seq<byte>)
      requires Valid() && |value| < TWO32
      modifies this, tail
      ensures Valid() && stack == Extended(old(stack), Varint(|value|) + value)
      ensures old(Fresh()) ==> Fresh()
      ensures fresh(Repr - old(Repr)) && old(Repr) <= Repr && fresh(tail) && frames == old(frames)
    {
      hide Valid, Fresh, Varint;
      ZeroIsZero();
      if |value| == 0 {
        VarintParts(0);
        assert Varint(0) + value == [0];
        Push(WriteByte(0), 1, [0]);
      } else {
        UInt32(|value|);
        Push(WriteBytes(value), |value|, value);
        ExtendedTwice(old(stack), Varint(|value|), value);
      }
    }

    method StringField(value: units)
      requires Valid()
      modifies this, tail
      ensures Valid() && stack == Extended(old(stack), Varint(ToUint32(|Utf8(value)|)) + Utf8(value))
      ensures old(Fresh()) ==> Fresh()
      ensures fresh(Repr - old(Repr)) && old(Repr) <= Repr && fresh(tail) && frames == old(frames)
    {
      hide Valid, Fresh, Varint, Utf8;
      ZeroIsZero();
      var n := Utf8Codec.Length(value);
      if n == 0 {
        VarintParts(0);
        assert Varint(0) + Utf8(value) == [0];
        Push(WriteByte(0), 1, [0]);
      } else {
        UInt32(n);
        Push(WriteUtf8(value), n, Utf8(value));
        ExtendedTwice(old(stack), Varint(ToUint32(n)), Utf8(value));
      }
    }

    /** Puts the present state aside and starts an empty one. */
    method Fork()
      requires Valid()
      modifies this
      ensures Valid() && stack == old(stack) + [[]]
      ensures old(Fresh()) ==> Fresh()
      ensures fresh(Repr - old(Repr)) && old(Repr) <= Repr
      ensures fresh(head) && all == old(all) + [head] && starts == old(starts) + [old(|all|)]
      ensures tail == head && states != null && states.tail == old(tail) && frames == old(frames) + [states]
    {
      hide Valid, Fresh, Longs;
      OpsFacts();
      states := new State(head, tail, len, states);
      var op := new Op(Noop, 0, []);
      head, tail := op, op;
      len := 0;
      Repr := Repr + {op};
      frames := frames + [states];
      starts := starts + [|all|];
      all := all + [op];
      stack := stack + [[]];
      ForkValid(op);
    }

    twostate lemma ForkValid(new op: Op)
      requires old(Valid()) && op.action.Noop? && op.len == 0 && op.bytes == [] && op.next == null && op !in old(Repr)
      requires states != null && states.head == old(head) && states.tail == old(tail) && states.len == old(len)
      requires states.next == old(states) && head == tail == op && len == 0
      requires Repr == old(Repr) + {op} && frames == old(frames) + [states] && starts == old(starts) + [old(|all|)]
      requires all == old(all) + [op] && stack == old(stack) + [[]]
      requires forall i :: 0 <= i < old(|all|) ==> all[i].next == old(all[i].next)
      requires forall b: LongBits :: b in old(Repr) ==> old(allocated(b)) && b.Value() == old(b.Value())
      ensures Valid() && (old(Fresh()) ==> Fresh())
    {
      hide Bytes, Varint, Output, Partition, Chain, Fresh, Ops, Longs, Distinct, Unspent, FrameHolds, Linked;
      StartsBelow(old(all), old(starts), old(stack));
      Forked(old(all), old(starts), old(stack), old(frames), old(states), op, states);
      ZeroStays(op);
      OpsForked(op);
      WritesNothing(op.action);
      LongsPushed(op);
    }

    twostate lemma ZeroStays(new op: Op)
      requires old(Valid()) && forall b: LongBits :: b in old(Repr) ==> old(allocated(b)) && b.Value() == old(b.Value())
      ensures zero.Value() == 0 && old(|all|) >= 1
    {
      hide Bytes;
    }

    /** Back to the state put aside last, or to an empty writer when there is none. */
    method Reset()
      requires Valid()
      modifies this
      ensures Valid() && (old(Fresh()) ==> Fresh())
      ensures fresh(Repr - old(Repr)) && old(Repr) <= Repr
      ensures |stack| == |starts| && (if old(states) != null then tail == old(states.tail) else fresh(tail))
      ensures old(states) != null <==> old(|starts|) > 1
      ensures frames == if old(frames) == [] then [] else old(frames)[..|old(frames)| - 1]
      ensures if old(|starts|) > 1 then
                && stack == old(stack)[..old(|stack|) - 1] && starts == old(starts)[..old(|starts|) - 1]
                && old(starts[|starts| - 1]) < old(|all|) && all == old(all)[..old(starts[|starts| - 1])]
              else stack == [[]] && |all| == 1 && fresh(all[0]) && Plain(all[0]) && starts == [0]
    {
      hide Valid, Fresh, Chain, Partition, Plain;
      Shape();
      if states != null { Pop(); } else { Clear(); }
    }

    method Pop()
      requires Valid() && states != null
      modifies this
      ensures Valid() && (old(Fresh()) ==> Fresh()) && Repr == old(Repr) && tail == old(states.tail)
      ensures |stack| == |starts| && |old(starts)| > 1 && |old(stack)| > 1 && |old(frames)| >= 1
      ensures frames == old(frames)[..|old(frames)| - 1]
      ensures stack == old(stack)[..old(|stack|) - 1] && starts == old(starts)[..old(|starts|) - 1]
      ensures old(starts[|starts| - 1]) < old(|all|) && all == old(all)[..old(starts[|starts| - 1])]
    {
      hide Valid, Fresh, Longs, Partition, Chain;
      Saved();
      head := states.head;
      tail := states.tail;
      len := states.len;
      states := states.next;
      var n := |frames|;
      all, starts, stack, frames := all[..starts[n]], starts[..n], stack[..n], frames[..n - 1];
      PopValid();
    }

    lemma Saved()
      requires Valid() && states != null
      ensures |frames| + 1 == |starts| == |stack| && frames != [] && states == frames[|frames| - 1]
      ensures starts[|frames|] < |all|
    {
      hide Bytes, Partition, Chain;
      ChainTop(all, starts, stack, frames, states);
      StartsBelow(all, starts, stack);
    }

    twostate lemma PopValid()
      requires old(Valid()) && old(states) != null && Repr == old(Repr)
      requires old(|frames| + 1 == |starts| == |stack|) && old(frames) != [] && old(starts[|frames|] < |all|)
      requires head == old(states).head && tail == old(states).tail && len == old(states).len && states == old(states).next
      requires var n := old(|frames|);
               all == old(all)[..old(starts)[n]] && starts == old(starts)[..n] && stack == old(stack)[..n] && frames == old(frames)[..n - 1]
      requires forall i :: 0 <= i < old(|all|) ==> old(all)[i].next == old(all[i].next)
      requires forall b: LongBits :: b in old(Repr) ==> old(allocated(b)) && b.Value() == old(b.Value())
      ensures Valid() && (old(Fresh()) ==> Fresh())
    {
      hide Bytes, Varint, Output, Partition, Chain, Ops, Longs, Fresh;
      ZeroStays(head);
      ChainTop(old(all), old(starts), old(stack), old(frames), old(states));
      PartitionDropped(old(all), old(starts), old(stack), old(frames), old(states));
      OpsDropped();
      LongsDropped();
    }

    method Clear()
      requires Valid() && states == null
      modifies this
      ensures Valid() && Fresh() && fresh(Repr - old(Repr)) && old(Repr) <= Repr
      ensures stack == [[]] && |all| == 1 && fresh(all[0]) && Plain(all[0]) && starts == [0] && tail == all[0]
      ensures frames == old(frames) == []
    {
      hide Bytes, Varint, Output, Partition, Chain, Ops, Longs, Fresh;
      ChainTop(all, starts, stack, frames, states);
      ZeroIsZero();
      var op := new Op(Noop, 0, []);
      head, tail := op, op;
      len := 0;
      Repr := Repr + {op};
      all, starts, stack := [op], [0], [[]];
      WritesNothing(op.action);
      FirstPartition(op);
      OnlyNoop();
    }

    /** Back to the last state, then the length of the forked bytes and the bytes. */
    method LDelim()
      requires Valid()
      modifies this, if states != null then states.tail else this
      ensures Valid() && (old(Fresh()) ==> Fresh())
      ensures fresh(Repr - old(Repr)) && old(Repr) <= Repr && (fresh(tail) || tail == old(tail))
      ensures frames == if old(frames) == [] then [] else old(frames)[..|old(frames)| - 1]
      ensures var top := old(stack[|stack| - 1]);
              stack == Extended(if old(|stack|) > 1 then old(stack)[..old(|stack|) - 1] else [[]],
                                Varint(ToUint32(|top|)) + top)
    {
      hide Valid, Bytes, Varint, Fresh, Unspent, Longs, Linked, Distinct, Extended;
      Shape();
      ForkedOps();
      ghost var ops, b, below := all, starts[|starts| - 1], stack;
      var head', tail', len' := head, tail, len;
      NoneBytes(ops[b + 1..]);
      assert |ops[b + 1..]| == |ops| - b - 1 && (b + 1 == |ops| ==> len' == 0);
      PutLength(len', b);
      Joined(below, len');
      if len' > 0 { Splice(head', tail', len', ops[b + 1..]); }
    }

    /** Back to the last state, and the length; the forked operations are ready to follow. */
    method PutLength(n: nat, ghost b: nat)
      requires Valid() && |starts| >= 1 && b == starts[|starts| - 1] < |all|
      modifies this, if states != null then states.tail else this
      ensures Valid() && fresh(Repr - old(Repr)) && old(Repr) <= Repr && fresh(tail)
      ensures frames == if old(frames) == [] then [] else old(frames)[..|old(frames)| - 1]
      ensures stack == Extended(if old(|stack|) > 1 then old(stack)[..old(|stack|) - 1] else [[]], Varint(ToUint32(n)))
      ensures Longs(all + old(all)[b + 1..]) && (old(Fresh()) ==> Unspent(all + old(all)[b + 1..]) && Fresh())
      ensures b + 1 < |old(all)| ==> Linked(old(all)[b + 1..]) && old(all)[b].next == old(all)[b + 1..][0]
      ensures Distinct(old(all)[b + 1..]) && tail != old(all)[b]
      ensures forall op: Op :: op in old(all)[b + 1..] ==> op in Repr && |op.bytes| == op.len && op !in all
    {
      hide Valid, Bytes, Varint, Fresh, Unspent, Longs, Linked, Distinct, Plain, Extended;
      Shape();
      Forkable(b);
      ghost var ops := all;
      Reset();
      TailLast();
      if b > 0 { assert tail in ops[..b]; }
      assert tail !in ops[b..];
      UInt32(n);
      LongsReady(ops, b);
    }

    lemma TailLast()
      requires Valid()
      ensures |all| >= 1 && tail == all[|all| - 1]
    {
      hide Bytes;
    }

    /** What is known of the forked operations. */
    lemma Forkable(b: nat)
      requires Valid() && |starts| >= 1 && b == starts[|starts| - 1] < |all|
      ensures Longs(all) && Distinct(all[b + 1..])
      ensures b + 1 < |all| ==> Linked(all[b + 1..]) && all[b].next == all[b + 1..][0]
      ensures forall op: Op :: op in all[b..] ==> op in Repr && |op.bytes| == op.len
      ensures forall op: Op :: op in all[..b] ==> op !in all[b..]
      ensures forall op: Op :: op in all[b + 1..] ==> op in all[b..]
    {
      hide Valid, Linked, Distinct, Longs;
      ForkedOps();
      ForkedLinks();
      DistinctParts(all, b);
      LongsHold();
      if b + 1 < |all| { ListReady(all, b, all); }
    }

    lemma LongsHold()
      requires Valid()
      ensures Longs(all)
    {
      hide Bytes, Longs, Ops;
    }

    /** The shape of the state stack. */
    lemma Shape()
      requires Valid()
      ensures |starts| == |stack| == |frames| + 1 && starts[0] == 0 && starts[|starts| - 1] < |all|
      ensures states == if frames == [] then null else frames[|frames| - 1]
      ensures tail == all[|all| - 1] && head == all[starts[|starts| - 1]] && len == |stack[|stack| - 1]|
      ensures Bytes(all[starts[|starts| - 1] + 1..], 0, |all| - starts[|starts| - 1] - 1) == stack[|stack| - 1]
    {
      hide Bytes, Partition, Chain, Longs, Ops;
      ChainTop(all, starts, stack, frames, states);
      StartsBelow(all, starts, stack);
      LastPart(all, starts, stack);
    }

    static lemma Joined(below: seq<seq<byte>>, n: nat)
      requires |below| >= 1 && n == |below[|below| - 1]|
      ensures var rest, top := if |below| > 1 then below[..|below| - 1] else [[]], below[|below| - 1];
              var v := Varint(ToUint32(n));
              && (n == 0 ==> Extended(rest, v) == Extended(rest, v + top))
              && Extended(Extended(rest, v), top) == Extended(rest, v + top)
    {
      hide Varint;
      var rest, top := if |below| > 1 then below[..|below| - 1] else [[]], below[|below| - 1];
      var v := Varint(ToUint32(n));
      if n == 0 { assert v + top == v; }
      ExtendedTwice(rest, v, top);
    }

    /** The 64-bit values of the operations kept and of the forked ones are as before. */
    twostate lemma LongsReady(new ops: seq<Op>, new b: nat)
      requires old(Longs(all)) && ops == old(all) && b < |ops| && old(Repr) <= Repr
      requires |all| >= 1 && Plain(all[|all| - 1])
      requires (|all| == b + 1 && all[..b] == ops[..b]) || (b == 0 && |all| == 2 && Plain(all[0]))
      requires forall v: LongBits :: v in old(Repr) ==> old(allocated(v)) && v.Value() == old(v.Value())
      ensures Longs(all + ops[b + 1..]) && (old(Fresh()) ==> Unspent(all + ops[b + 1..]))
    {
      hide Longs, Plain, Unspent;
      var spliced, shift := all + ops[b + 1..], if |all| == b + 1 then 0 else 1;
      forall i | 0 <= i < |spliced| ensures Plain(spliced[i]) || SamePlace(spliced, ops, i, shift) {
        if |all| == b + 1 { OnePlace(ops, b, all, i); } else { TwoPlaces(ops, all, i); }
      }
      LongsSpliced(spliced, shift);
    }

    /** The forked operations can follow the new tail. */
    static lemma ListReady(ops: seq<Op>, b: nat, all: seq<Op>)
      requires b + 1 < |ops| && Linked(ops[b..])
      ensures Linked(ops[b + 1..]) && ops[b].next == ops[b + 1..][0]
    {
      hide Linked;
      LinkedRest(ops[b..]);
      assert ops[b..][1..] == ops[b + 1..];
    }

    /** `this.tail.next = head.next; this.tail = tail; this.len += len` */
    method Splice(head': Op, tail': Op, len': nat, ghost forked: seq<Op>)
      requires Valid() && forked != [] && Linked(forked) && head'.next == forked[0] && tail' == forked[|forked| - 1]
      requires len' == |Bytes(forked, 0, |forked|)|
      requires forall op: Op :: op in forked ==> op in Repr && |op.bytes| == op.len && op !in all
      requires Distinct(forked)
      requires Longs(all + forked) && head' != tail
      modifies this, tail
      ensures Valid() && stack == Extended(old(stack), Bytes(forked, 0, |forked|))
      ensures Repr == old(Repr) && all == old(all) + forked && frames == old(frames)
      ensures tail == tail'
      ensures old(Unspent(all + forked)) ==> Fresh()
    {
      hide Valid, Fresh, Bytes, Longs, Linked, Unspent, Uses, Distinct, Extended;
      OpsFacts();
      Shape();
      tail.next := head'.next;
      tail := tail';
      len := len + len';
      all := all + forked;
      stack := Extended(stack, Bytes(forked, 0, |forked|));
      SpliceValid(forked);
    }

    twostate lemma SpliceValid(forked: seq<Op>)
      requires old(Valid()) && forked != []
      requires Linked(forked) && forall op: Op :: op in forked ==> op in Repr && |op.bytes| == op.len && op !in old(all)
      requires Distinct(forked) && old(Longs(all + forked)) && old(|stack|) >= 1
      requires tail == forked[|forked| - 1] && len == old(len) + |Bytes(forked, 0, |forked|)|
      requires old(tail).next == forked[0] && forall i :: 0 <= i < old(|all|) - 1 ==> old(all)[i].next == old(all[i].next)
      requires all == old(all) + forked && stack == Extended(old(stack), Bytes(forked, 0, |forked|))
      requires head == old(head) && starts == old(starts) && frames == old(frames) && states == old(states) && Repr == old(Repr)
      requires forall b: LongBits :: b in old(Repr) ==> old(allocated(b)) && b.Value() == old(b.Value())
      ensures Valid() && (old(Unspent(all + forked)) ==> Fresh())
    {
      hide Bytes, Varint, Partition, Chain, Ops, Longs, Linked, FrameHolds, Uses, Owned, Output;
      ChainExtended(old(all), old(starts), old(stack), old(frames), old(states), forked);
      StartsBelow(old(all), old(starts), old(stack));
      ZeroStays(head);
      OpsSpliced(forked);
      LongsKept(all);
    }

    twostate lemma LongsKept(ops: seq<Op>)
      requires old(Longs(ops)) && Repr == old(Repr)
      requires forall b: LongBits :: b in Repr ==> b.Value() == old(b.Value())
      ensures Longs(ops) && (old(Unspent(ops)) ==> Unspent(ops))
    {
      hide Varint;
    }

    /** The operations of the present state. */
    lemma ForkedOps()
      requires Valid()
      ensures |starts| >= 1 && starts[|starts| - 1] < |all|
      ensures var b := starts[|starts| - 1];
              && all[b] == head && all[|all| - 1] == tail
              && (forall op: Op :: op in all[b..] ==> op in Repr && |op.bytes| == op.len)
              && Distinct(all)
    {
      hide Bytes, Chain, Longs, Distinct;
      StartsBelow(all, starts, stack);
      hide Partition;
    }

    lemma ForkedLinks()
      requires Valid()
      ensures |starts| >= 1 && starts[|starts| - 1] < |all| && Linked(all[starts[|starts| - 1]..])
    {
      hide Bytes, Chain, Longs;
      hide Partition;
      StartsBelow(all, starts, stack);
      LastStart(all, starts, stack);
      var b := starts[|starts| - 1];
      var ops := all[b..];
      forall i | 0 <= i < |ops|
        ensures ops[i].next == if i + 1 < |ops| then ops[i + 1] else null
      {
        assert ops[i].next == all[b + i].next && b + i + 1 !in starts;
      }
    }

    twostate lemma OpsSpliced(forked: seq<Op>)
      requires old(Ops()) && old(|all|) >= 1 && all == old(all) + forked && starts == old(starts) && Repr == old(Repr)
      requires forall j :: 0 <= j < |starts| ==> starts[j] < old(|all|)
      requires forked != [] && Linked(forked) && all[old(|all|) - 1].next == forked[0]
      requires forall op: Op :: op in forked ==> op in Repr && |op.bytes| == op.len && op !in old(all)
      requires Distinct(forked)
      requires zero.Value() == 0
      requires forall i :: 0 <= i < old(|all|) - 1 ==> all[i].next == old(all[i].next)
      ensures Ops()
    {
      ghost var n := old(|all|);
      forall i, j | 0 <= i < j < |all| ensures all[i] != all[j] {
        if i >= n { assert all[i] == forked[i - n] && all[j] == forked[j - n]; }
        else if j >= n { assert all[j] == forked[j - n] && all[i] == old(all)[i]; }
      }
      forall i | 0 <= i < |all|
        ensures all[i].next == if i + 1 < |all| && i + 1 !in starts then all[i + 1] else null
      {
        if i >= n { assert all[i].next == forked[i - n].next; }
        else if i < n - 1 { assert all[i].next == old(all[i].next); }
      }
    }

    /** Operations kept, shifted by at most one place, among new ones without 64-bit values. */
    twostate lemma LongsSpliced(new ops: seq<Op>, shift: nat)
      requires old(Longs(all)) && old(Repr) <= Repr
      requires forall b: LongBits :: b in old(Repr) ==> old(allocated(b)) && b.Value() == old(b.Value())
      requires forall i :: 0 <= i < |ops| ==>
        Plain(ops[i]) || SamePlace(ops, old(all), i, shift)
      ensures Longs(ops) && (old(Fresh()) ==> Unspent(ops))
    {
      hide Varint;
    }

    /** The operations of the present state that a finish carries out. */
    ghost function Pending(): (ops: seq<Op>)
      reads this
    {
      if |starts| >= 1 && starts[|starts| - 1] < |all| then all[starts[|starts| - 1] + 1..] else []
    }

    ghost function Values(): (v: set<LongBits>)
      reads this
    {
      set i, b | 0 <= i < |all| && b in Uses(all[i]) :: b
    }

    /** `head.fn(head.val, buf, pos)`: no other operation's output changes. */
    method Carry(op: Op, buf: array<byte>, pos: nat, ghost i: nat)
      requires Longs(all) && i < |all| && all[i] == op && pos + |Output(op.action)| <= buf.Length
      modifies buf, Uses(op)
      ensures Longs(all)
      ensures buf[..] == old(buf[..pos]) + old(Output(op.action)) + old(buf[pos + |Output(op.action)|..])
      ensures Output(op.action) == old(Leftover(op.action))
      ensures forall j :: 0 <= j < |all| && all[j] != op ==> Output(all[j].action) == old(Output(all[j].action))
      ensures forall b: LongBits :: b in Repr && old(b.Value()) == 0 ==> b.Value() == 0
    {
      hide Leftover, Longs, Varint, Output;
      Execute(op.action, buf, pos);
      CarriedOut(op, i);
    }

    twostate lemma CarriedOut(new op: Op, i: nat)
      requires old(Longs(all)) && all == old(all) && Repr == old(Repr) && i < |all| && all[i] == op
      requires Output(op.action) == old(Leftover(op.action))
      requires forall b: LongBits :: b in Repr && b !in Uses(op) ==> b.Value() == old(b.Value())
      ensures Longs(all)
      ensures forall j :: 0 <= j < |all| && all[j] != op ==> Output(all[j].action) == old(Output(all[j].action))
      ensures forall b: LongBits :: b in Repr && old(b.Value()) == 0 ==> b.Value() == 0
    {
      hide Fixed32Bytes, Utf8, Varint;
      if Uses(op) != {} {
        var b :| b in Uses(op);
        VarintZero(b.Value());
        VarintZero(old(b.Value()));
      }
    }

    /** The first k pending operations have been carried out, the others are as they were. */
    ghost predicate Progress(images: seq<seq<byte>>, leftovers: seq<seq<byte>>, k: nat)
      reads this, Repr
    {
      var ops := Pending();
      && |ops| == |images| == |leftovers| && k <= |ops|
      && (forall i :: 0 <= i < |ops| ==> Uses(ops[i]) <= Repr)
      && (forall i :: k <= i < |ops| ==> Image(ops[i]) == images[i] && Leftover(ops[i].action) == leftovers[i])
      && (forall i :: 0 <= i < k ==> Output(ops[i].action) == leftovers[i])
    }

    twostate lemma Progressed(new images: seq<seq<byte>>, new leftovers: seq<seq<byte>>, new k: nat)
      requires old(Progress(images, leftovers, k)) && k < |Pending()| && all == old(all) && starts == old(starts) && Repr == old(Repr)
      requires Output(Pending()[k].action) == old(Leftover(Pending()[k].action))
      requires forall j :: 0 <= j < |all| && all[j] != Pending()[k] ==> Output(all[j].action) == old(Output(all[j].action))
      requires Distinct(all)
      ensures Progress(images, leftovers, k + 1)
    {
      hide Output;
      var ops, first := Pending(), starts[|starts| - 1] + 1;
      forall i | 0 <= i < |ops| && i != k ensures Output(ops[i].action) == old(Output(ops[i].action)) {
        assert ops[i] == all[first + i] && ops[k] == all[first + k];
      }
    }

    /** `head.fn(head.val, buf, pos); pos += head.len` */
    method Turn(op: Op, buf: array<byte>, pos: nat,
                ghost images: seq<seq<byte>>, ghost leftovers: seq<seq<byte>>, ghost k: nat) returns (pos': nat)
      requires Longs(all) && Distinct(all) && Progress(images, leftovers, k)
      requires k < |Pending()| && Pending()[k] == op && |op.bytes| == op.len
      requires k < |images| && pos == |Join(images[..k])| <= buf.Length && |Join(images)| == buf.Length
      requires buf[..] == Join(images[..k]) + Zeros(buf.Length - pos)
      modifies buf, Uses(op)
      ensures Longs(all) && Progress(images, leftovers, k + 1)
      ensures pos' == |Join(images[..k + 1])| <= buf.Length
      ensures buf[..] == Join(images[..k + 1]) + Zeros(buf.Length - pos')
      ensures forall b: LongBits :: b in Repr && old(b.Value()) == 0 ==> b.Value() == 0
    {
      hide Output, Leftover, Image, Longs, Join, Uses, Distinct, Progress;
      ghost var i := starts[|starts| - 1] + 1 + k;
      assert all[i] == op;
      OutputFits(i);
      NextImage(images, leftovers, k);
      ImageParts(op);
      JoinGrows(images, k);
      StepBuffer(Join(images[..k]), Output(op.action), op.len, buf.Length);
      Carry(op, buf, pos, i);
      Progressed(images, leftovers, k);
      pos' := pos + op.len;
    }

    /** Fills a buffer of exactly len bytes from the list, one operation after the other. */
    method Finish() returns (buf: array<byte>)
      requires Valid()
      modifies Values()
      ensures fresh(buf) && Valid() && buf.Length == len
      ensures buf[..] == Join(old(Images(Pending())))
      ensures old(Fresh()) ==> buf[..] == stack[|stack| - 1]
      ensures Pending() == old(Pending())
      ensures forall i :: 0 <= i < |Pending()| ==> Output(Pending()[i].action) == old(Leftover(Pending()[i].action))
    {
      hide Output, Leftover, Image, Images, Leftovers, Longs, Linked, Ops, States, Fresh, Bytes, Join, Uses, Owned, Distinct,
           Progress, Values, Pending;
      StartFinish();
      ZeroIsZero();
      ForkedOps();
      ghost var images, leftovers := Images(Pending()), Leftovers(Pending());
      buf := new byte[len](_ => 0);
      Unchanged(images, leftovers);
      assert buf[..] == Zeros(len);
      Walk(head.next, buf, images, leftovers);
      OpsKept();
      Done(images, leftovers);
    }

    /** `while (head) { head.fn(head.val, buf, pos); pos += head.len; head = head.next; }` */
    method Walk(first: Op?, buf: array<byte>, ghost images: seq<seq<byte>>, ghost leftovers: seq<seq<byte>>)
      requires Longs(all) && Distinct(all) && Linked(Pending()) && zero in Repr && zero.Value() == 0
      requires first == if Pending() == [] then null else Pending()[0]
      requires forall i :: 0 <= i < |Pending()| ==> |Pending()[i].bytes| == Pending()[i].len
      requires Progress(images, leftovers, 0) && |images| == |Pending()|
      requires |Join(images)| == buf.Length && buf[..] == Zeros(buf.Length)
      modifies buf, Values()
      ensures Longs(all) && zero.Value() == 0
      ensures Progress(images, leftovers, |Pending()|) && buf[..] == Join(images)
    {
      hide Output, Leftover, Image, Longs, Linked, Join, Uses, Distinct, Progress, Values;
      ghost var k := 0;
      var op, pos := first, 0;
      JoinNone(images);
      assert buf[..] == Join(images[..k]) + Zeros(buf.Length - pos);
      while op != null
        invariant k <= |Pending()|
        invariant op == if k < |Pending()| then Pending()[k] else null
        invariant Longs(all) && Linked(Pending()) && zero.Value() == 0
        invariant Progress(images, leftovers, k)
        invariant pos == |Join(images[..k])| <= buf.Length
        invariant buf[..] == Join(images[..k]) + Zeros(buf.Length - pos)
        decreases |Pending()| - k
      {
        UsesInValues(Pending(), k);
        NextLinked(Pending(), k);
        pos := Turn(op, buf, pos, images, leftovers, k);
        op := op.next;
        k := k + 1;
      }
      assert images[..k] == images;
    }

    /** The first finish writes the bytes. A second one writes them again exactly when no
        64-bit value takes more than one byte, since writing such a value shifts it away. */
    method FinishTwice() returns (first: array<byte>, second: array<byte>)
      requires Valid() && Fresh()
      modifies Values()
      ensures first[..] == stack[|stack| - 1] && Pending() == old(Pending())
      ensures second[..] == first[..] <==>
              forall i :: 0 <= i < |Pending()| && Pending()[i].action.WriteVarint64? ==> Pending()[i].len == 1
    {
      hide Valid, Fresh, Images, Join, Image, Values, Pending;
      ghost var was := Images(Pending());
      first := FinishSpent();
      JoinSame(was, Images(Pending()));
      second := Finish();
    }

    /** A first finish, and what the operations would write now. */
    method FinishSpent() returns (first: array<byte>)
      requires Valid() && Fresh()
      modifies Values()
      ensures Valid() && first[..] == stack[|stack| - 1] == Join(old(Images(Pending()))) && Pending() == old(Pending())
      ensures forall i :: 0 <= i < |Pending()| ==>
                && |Image(Pending()[i])| == |old(Image(Pending()[i]))|
                && (Image(Pending()[i]) == old(Image(Pending()[i])) <==>
                      (Pending()[i].action.WriteVarint64? ==> Pending()[i].len == 1))
    {
      hide Valid, Fresh, Images, Join, Leftover, Output, Image, Uses, Values, Pending;
      OutputsNow();
      first := Finish();
      Spent();
    }

    lemma OutputsNow()
      requires Valid() && Fresh()
      ensures forall i :: 0 <= i < |Pending()| ==>
        Image(Pending()[i]) == Output(Pending()[i].action) == Pending()[i].bytes && |Pending()[i].bytes| == Pending()[i].len
    {
      hide Output, Image, Uses, Longs, Ops, Unspent, Distinct, Bytes, Chain, Linked;
      StartFinish();
      ghost var ops, b := Pending(), starts[|starts| - 1] + 1;
      forall i | 0 <= i < |ops| ensures Image(ops[i]) == Output(ops[i].action) == ops[i].bytes {
        assert ops[i] == all[b + i];
        ImageOf(b + i);
        OutputFits(b + i);
        ImageParts(ops[i]);
        OutputOf(b + i);
      }
    }

    lemma OutputOf(i: nat)
      requires Fresh() && i < |all|
      ensures Output(all[i].action) == all[i].bytes
    {
      hide Varint, Utf8;
      if Uses(all[i]) != {} { var b :| b in Uses(all[i]); }
    }

    /** A spent operation reproduces its bytes exactly when it has no 64-bit value or a short one. */
    twostate lemma Spent()
      requires old(forall i :: 0 <= i < |Pending()| ==>
        Output(Pending()[i].action) == Pending()[i].bytes && |Pending()[i].bytes| == Pending()[i].len)
      requires Pending() == old(Pending())
      requires forall i :: 0 <= i < |Pending()| ==> Output(Pending()[i].action) == old(Leftover(Pending()[i].action))
      ensures forall i :: 0 <= i < |Pending()| ==>
        |Image(Pending()[i])| == Pending()[i].len
        && (Image(Pending()[i]) == Pending()[i].bytes <==>
            (Pending()[i].action.WriteVarint64? ==> Pending()[i].len == 1))
    {
      hide Varint, Utf8, Constant;
      ghost var ops := Pending();
      forall i | 0 <= i < |ops|
        ensures |Image(ops[i])| == ops[i].len
                && (Image(ops[i]) == ops[i].bytes <==> (ops[i].action.WriteVarint64? ==> ops[i].len == 1))
      {
        if ops[i].action.WriteVarint64? { VarintEnds(old(ops[i].action.bits.Value())); }
      }
    }

    twostate lemma Unchanged(new images: seq<seq<byte>>, new leftovers: seq<seq<byte>>)
      requires images == old(Images(Pending())) && leftovers == old(Leftovers(Pending())) && Pending() == old(Pending())
      requires forall i :: 0 <= i < |Pending()| ==> Uses(Pending()[i]) <= Repr
      requires Repr == old(Repr)
      requires forall b: LongBits :: b in old(Repr) ==> old(allocated(b)) && b.Value() == old(b.Value())
      ensures Progress(images, leftovers, 0)
    {
      hide Varint, Utf8, Fixed32Bytes, Pending, Images, Leftovers;
    }

    lemma NextImage(images: seq<seq<byte>>, leftovers: seq<seq<byte>>, k: nat)
      requires Progress(images, leftovers, k) && k < |Pending()|
      ensures Image(Pending()[k]) == images[k] && Leftover(Pending()[k].action) == leftovers[k]
    {}

    lemma Done(images: seq<seq<byte>>, leftovers: seq<seq<byte>>)
      requires Progress(images, leftovers, |Pending()|)
      ensures forall i :: 0 <= i < |Pending()| ==> Output(Pending()[i].action) == leftovers[i]
    {}

    twostate lemma OpsKept()
      requires old(Ops()) && zero.Value() == 0 && all == old(all) && starts == old(starts) && Repr == old(Repr)
      requires forall i :: 0 <= i < |all| ==> all[i].next == old(all[i].next)
      ensures Ops()
    {}

    lemma OutputFits(i: nat)
      requires Longs(all) && i < |all| && |all[i].bytes| == all[i].len
      ensures |Output(all[i].action)| <= all[i].len && |Image(all[i])| == all[i].len
    {
      hide Utf8, Varint, Fixed32Bytes;
    }

    lemma UsesInValues(ops: seq<Op>, k: nat)
      requires ops == Pending() && k < |ops|
      ensures Uses(ops[k]) <= Values()
    {
      assert ops[k] == all[starts[|starts| - 1] + 1 + k];
    }

    /** What the loop of a finish starts from. */
    lemma StartFinish()
      requires Valid()
      ensures |starts| >= 1 && starts[|starts| - 1] < |all| && Pending() == all[starts[|starts| - 1] + 1..]
      ensures Linked(Pending()) && head.next == if Pending() == [] then null else Pending()[0]
      ensures forall i :: 0 <= i < |Pending()| ==> |Pending()[i].bytes| == Pending()[i].len && Uses(Pending()[i]) <= Repr
      ensures |Join(Images(Pending()))| == len
      ensures Fresh() ==> Join(Images(Pending())) == stack[|stack| - 1]
    {
      hide Bytes, Partition, Chain, Linked, Distinct, Output, Longs, Ops, Unspent, Image, Join, Uses;
      ForkedLinks();
      ForkedOps();
      LastPart(all, starts, stack);
      var b := starts[|starts| - 1];
      LinkedRest(all[b..]);
      var ops, images := Pending(), Images(Pending());
      assert all[b..][1..] == ops;
      forall i | 0 <= i < |ops| ensures |ops[i].bytes| == ops[i].len && Uses(ops[i]) <= Repr {
        assert ops[i] == all[b + 1 + i];
        UsesOf(b + 1 + i);
      }
      forall i | 0 <= i < |ops| ensures |images[i]| == |ops[i].bytes| && (Fresh() ==> images[i] == ops[i].bytes) {
        assert ops[i] == all[b + 1 + i];
        ImageOf(b + 1 + i);
      }
      JoinIs(images, ops, |ops|);
      assert images[..|ops|] == images;
    }

    lemma UsesOf(i: nat)
      requires Longs(all) && i < |all|
      ensures Uses(all[i]) <= Repr
    {}

    lemma ImageOf(i: nat)
      requires Valid() && i < |all|
      ensures |Image(all[i])| == |all[i].bytes| && (Fresh() ==> Image(all[i]) == all[i].bytes)
    {
      hide States, Distinct, Varint, Utf8, Fixed32Bytes;
      OutputFits(i);
      if Uses(all[i]) != {} { var b :| b in Uses(all[i]); }
    }

    twostate lemma OpsPushed(new op: Op)
      requires old(Ops()) && old(|all|) >= 1 && all == old(all) + [op] && starts == old(starts)
      requires forall j :: 0 <= j < |starts| ==> starts[j] < old(|all|)
      requires op !in old(Repr) && Repr == old(Repr) + {op} + Uses(op)
      requires zero.Value() == 0 && |op.bytes| == op.len && op.next == null
      requires forall i :: 0 <= i < old(|all|) - 1 ==> all[i].next == old(all[i].next)
      requires all[old(|all|) - 1].next == op
      ensures Ops()
    {}

    twostate lemma OpsDropped()
      requires old(Ops()) && Repr == old(Repr) && |old(starts)| >= 1 && starts == old(starts)[..|old(starts)| - 1]
      requires var b := old(starts[|starts| - 1]); b <= old(|all|) && all == old(all)[..b]
      requires zero.Value() == 0
      requires forall i :: 0 <= i < |all| ==> all[i].next == old(all[i].next)
      ensures Ops()
    {
      ghost var b := old(starts[|starts| - 1]);
      assert b in old(starts);
      forall k | 0 < k < b
        ensures k in old(starts) <==> k in starts
      {
        assert old(starts) == starts + [b];
      }
    }

    twostate lemma LongsDropped()
      requires old(Longs(all)) && Repr == old(Repr) && |all| <= |old(all)| && all == old(all)[..|all|]
      requires forall b: LongBits :: b in Repr ==> b.Value() == old(b.Value())
      ensures Longs(all) && (old(Fresh()) ==> Fresh())
    {
      hide Varint;
    }

    lemma OnlyNoop()
      requires |all| == 1 && all[0].action.Noop? && all[0].bytes == [] && all[0].len == 0 && all[0].next == null
      requires this in Repr && zero in Repr && zero.Value() == 0 && all[0] in Repr
      ensures Ops() && Longs(all) && Fresh()
    {}

    twostate lemma OpsForked(new op: Op)
      requires old(Ops()) && old(|all|) >= 1 && all == old(all) + [op] && starts == old(starts) + [old(|all|)]
      requires op !in old(Repr) && Repr == old(Repr) + {op}
      requires zero.Value() == 0 && |op.bytes| == op.len && op.next == null
      requires forall i :: 0 <= i < old(|all|) ==> all[i].next == old(all[i].next)
      ensures Ops()
    {}

    twostate lemma LongsPushed(new op: Op)
      requires old(Longs(all)) && all == old(all) + [op] && Repr == old(Repr) + {op} + Uses(op)
      requires forall b: LongBits :: b in old(Repr) ==> old(allocated(b)) && b.Value() == old(b.Value())
      requires forall b :: b in Uses(op) ==> b.Value() == 0 || b !in old(Repr)
      requires |op.bytes| == op.len && Output(op.action) == op.bytes
      ensures Longs(all)
      ensures old(Fresh()) ==> Fresh()
    {
      hide Varint;
    }
  }

  lemma WritesNothing(a: Action)
    requires a.Noop?
    ensures Output(a) == []
  {}

  function Zeros(n: nat): (r: seq<byte>)
    ensures |r| == n
  {
    seq(n, i => 0)
  }

  function Join(parts: seq<seq<byte>>): (r: seq<byte>) {
    if parts == [] then [] else Join(parts[..|parts| - 1]) + parts[|parts| - 1]
  }

  /** What an operation leaves in the bytes reserved for it, which start out as zeros. */
  ghost function Image(op: Op): (r: seq<byte>)
    reads Uses(op)
  {
    Output(op.action) + Zeros(if |Output(op.action)| <= op.len then op.len - |Output(op.action)| else 0)
  }

  ghost function Images(ops: seq<Op>): (r: seq<seq<byte>>)
    reads set i, b | 0 <= i < |ops| && b in Uses(ops[i]) :: b
    ensures |r| == |ops| && forall i :: 0 <= i < |ops| ==> r[i] == Image(ops[i])
  {
    if ops == [] then [] else
      var front, last := ops[..|ops| - 1], ops[|ops| - 1];
      assert forall i :: 0 <= i < |front| ==> front[i] == ops[i];
      Images(front) + [Image(last)]
  }

  ghost function Leftovers(ops: seq<Op>): (r: seq<seq<byte>>)
    reads set i, b | 0 <= i < |ops| && b in Uses(ops[i]) :: b
    ensures |r| == |ops| && forall i :: 0 <= i < |ops| ==> r[i] == Leftover(ops[i].action)
  {
    if ops == [] then [] else
      assert Owned(ops[|ops| - 1].action) == Uses(ops[|ops| - 1]);
      Leftovers(ops[..|ops| - 1]) + [Leftover(ops[|ops| - 1].action)]
  }

  lemma {:induction false} JoinIs(parts: seq<seq<byte>>, ops: seq<Op>, n: nat)
    requires n <= |parts| == |ops| && forall i :: 0 <= i < n ==> |parts[i]| == |ops[i].bytes|
    ensures |Join(parts[..n])| == |Bytes(ops, 0, n)|
    ensures (forall i :: 0 <= i < n ==> parts[i] == ops[i].bytes) ==> Join(parts[..n]) == Bytes(ops, 0, n)
    decreases n
  {
    if n > 0 {
      JoinIs(parts, ops, n - 1);
      assert parts[..n][..n - 1] == parts[..n - 1];
    }
  }

  lemma {:induction false} JoinGrows(parts: seq<seq<byte>>, k: nat)
    requires k < |parts|
    ensures Join(parts[..k + 1]) == Join(parts[..k]) + parts[k]
    ensures |Join(parts[..k + 1])| <= |Join(parts)|
    decreases |parts|
  {
    assert parts[..k + 1][..k] == parts[..k];
    if k + 1 < |parts| {
      JoinGrows(parts[..|parts| - 1], k);
      assert parts[..|parts| - 1][..k + 1] == parts[..k + 1];
    } else {
      assert parts[..k + 1] == parts;
    }
  }

  lemma ImageParts(op: Op)
    ensures |Output(op.action)| <= op.len ==> Image(op) == Output(op.action) + Zeros(op.len - |Output(op.action)|)
  {}

  lemma JoinNone(parts: seq<seq<byte>>)
    ensures Join(parts[..0]) == []
  {}

  /** Writing into the reserved zeros completes the next image. */
  lemma StepBuffer(done: seq<byte>, out: seq<byte>, n: nat, len: nat)
    requires |out| <= n && |done| + n <= len
    ensures var buf := done + Zeros(len - |done|);
            buf[..|done|] + out + buf[|done| + |out|..] == done + (out + Zeros(n - |out|)) + Zeros(len - |done| - n)
  {}

  lemma NextLinked(ops: seq<Op>, k: nat)
    requires Linked(ops) && k < |ops|
    ensures ops[k].next == if k + 1 < |ops| then ops[k + 1] else null
  {}

  lemma {:induction false} JoinSame(xs: seq<seq<byte>>, ys: seq<seq<byte>>)
    requires |xs| == |ys| && forall i :: 0 <= i < |xs| ==> |xs[i]| == |ys[i]|
    ensures Join(xs) == Join(ys) <==> xs == ys
    ensures |Join(xs)| == |Join(ys)|
  {
    if xs != [] {
      var n := |xs| - 1;
      JoinSame(xs[..n], ys[..n]);
      SameEnds(Join(xs[..n]), xs[n], Join(ys[..n]), ys[n]);
      assert xs == xs[..n] + [xs[n]] && ys == ys[..n] + [ys[n]];
    }
  }

  lemma SameEnds(a: seq<byte>, b: seq<byte>, c: seq<byte>, d: seq<byte>)
    requires |a| == |c| && |b| == |d|
    ensures a + b == c + d <==> a == c && b == d
  {
    if a + b == c + d {
      assert a == (a + b)[..|a|] && c == (c + d)[..|a|];
      assert b == (a + b)[|a|..] && d == (c + d)[|a|..];
    }
  }

  lemma {:induction false} VarintEnds(n: nat)
    ensures Varint(n)[|Varint(n)| - 1] < 128
    ensures |Varint(n)| > 1 ==> Varint(n)[0] >= 128
  {
    if n >= 128 { VarintEnds(n / 128); }
  }

  lemma VarintZero(v: nat)
    ensures Varint(v) == [0] <==> v == 0
  {}

  /** The 64-bit value an operation owns. */
  ghost function Uses(op: Op): (r: set<LongBits>) {
    Owned(op.action)
  }

  /** Each operation links to the next, and the last to none. */
  ghost predicate Linked(ops: seq<Op>)
    reads ops
  {
    forall i {:trigger ops[i].next} :: 0 <= i < |ops| ==> ops[i].next == if i + 1 < |ops| then ops[i + 1] else null
  }

  ghost predicate Distinct(ops: seq<Op>) {
    forall i, j :: 0 <= i < j < |ops| ==> ops[i] != ops[j]
  }

  lemma DistinctParts(ops: seq<Op>, b: nat)
    requires Distinct(ops) && b < |ops|
    ensures Distinct(ops[b + 1..])
    ensures forall op :: op in ops[..b] ==> op !in ops[b..]
    ensures forall op :: op in ops[b + 1..] ==> op in ops[b..]
  {}

  /** An operation that owns no 64-bit value. */
  ghost predicate Plain(op: Op) {
    !op.action.WriteVarint64? && Constant(op.action) == op.bytes
  }

  ghost predicate SamePlace(ops: seq<Op>, was: seq<Op>, i: nat, shift: nat) {
    shift <= i < |ops| && i - shift < |was| && ops[i] == was[i - shift]
  }

  lemma OnePlace(was: seq<Op>, b: nat, all: seq<Op>, i: nat)
    requires b < |was| && |all| == b + 1 && all[..b] == was[..b] && i < |all + was[b + 1..]|
    ensures i == b || SamePlace(all + was[b + 1..], was, i, 0)
    ensures i == b ==> (all + was[b + 1..])[i] == all[b]
  {
    if i < b { assert all[i] == all[..b][i] == was[..b][i]; }
  }

  lemma TwoPlaces(was: seq<Op>, all: seq<Op>, i: nat)
    requires |was| > 0 && |all| == 2 && i < |all + was[1..]|
    ensures i < 2 || SamePlace(all + was[1..], was, i, 1)
    ensures i < 2 ==> (all + was[1..])[i] == all[i]
  {}

  lemma LinkedRest(ops: seq<Op>)
    requires Linked(ops) && ops != []
    ensures Linked(ops[1..]) && ops[0].next == if |ops| > 1 then ops[1..][0] else null
  {
    var rest := ops[1..];
    forall i | 0 <= i < |rest| ensures rest[i].next == if i + 1 < |rest| then rest[i + 1] else null {
      assert rest[i].next == ops[i + 1].next;
    }
  }

  ghost function End(all: seq<Op>, starts: seq<nat>, j: nat): (e: nat)
    requires j < |starts|
  {
    if j + 1 < |starts| then starts[j + 1] else |all|
  }

  /** Each state's list begins with an operation that writes nothing. */
  ghost predicate Partition(all: seq<Op>, starts: seq<nat>, stack: seq<seq<byte>>) {
    && |starts| == |stack| >= 1 && starts[0] == 0
    && (forall j :: 0 <= j < |starts| ==>
          starts[j] < End(all, starts, j) <= |all| && all[starts[j]].bytes == []
          && stack[j] == Bytes(all, starts[j], End(all, starts, j)))
  }

  ghost predicate Chain(all: seq<Op>, starts: seq<nat>, stack: seq<seq<byte>>, frames: seq<State>, top: State?)
    requires Partition(all, starts, stack)
  {
    && |frames| + 1 == |starts|
    && top == (if frames == [] then null else frames[|frames| - 1])
    && (forall j :: 0 <= j < |frames| ==> FrameHolds(all, starts, stack, frames, j))
  }

  /** Frame j holds the head, the tail and the length of list j, and the frame below. */
  ghost predicate FrameHolds(all: seq<Op>, starts: seq<nat>, stack: seq<seq<byte>>, frames: seq<State>, j: nat) {
    && j < |frames| && j + 1 < |starts| == |stack| && starts[j] < starts[j + 1] <= |all|
    && frames[j].head == all[starts[j]] && frames[j].tail == all[starts[j + 1] - 1]
    && frames[j].len == |stack[j]| && frames[j].next == if j == 0 then null else frames[j - 1]
  }

  lemma ChainTop(all: seq<Op>, starts: seq<nat>, stack: seq<seq<byte>>, frames: seq<State>, top: State?)
    requires Partition(all, starts, stack) && Chain(all, starts, stack, frames, top)
    ensures |frames| + 1 == |starts| == |stack|
    ensures top == if frames == [] then null else frames[|frames| - 1]
  {}

  lemma FirstPartition(op: Op)
    requires op.bytes == []
    ensures Partition([op], [0], [[]]) && Chain([op], [0], [[]], [], null)
  {
    NoBytes([op], 0, 1);
  }

  lemma SmallLengths(v: u32)
    ensures |Varint(v)| == if v < 128 then 1 else if v < 16384 then 2 else if v < 2097152 then 3
                           else if v < 268435456 then 4 else 5
  {
    LongBits.Length4(v);
    LongBits.LengthStep(v / 0x1000_0000);
  }

  lemma TenByteLength(n: nat)
    requires TWO64 / 2 <= n < TWO64
    ensures |Varint(n)| == 10
  {
    hide Varint;
    VarintLength(n, 8);
    TenBytes(n);
    assert Pow2(63) * 2 == TWO64 by {
      Pow2Literals();
      Pow2Add(32, 31);
    }
  }

  lemma ExtendedTwice(stack: seq<seq<byte>>, a: seq<byte>, b: seq<byte>)
    requires |stack| >= 1
    ensures Extended(Extended(stack, a), b) == Extended(stack, a + b)
  {
    var top := stack[|stack| - 1];
    assert top + a + b == top + (a + b);
  }

  lemma NoneBytes(ops: seq<Op>)
    ensures ops == [] ==> Bytes(ops, 0, |ops|) == []
  {}

  lemma NoBytes(ops: seq<Op>, a: nat, b: nat)
    requires a + 1 == b <= |ops| && ops[a].bytes == []
    ensures Bytes(ops, a, b) == []
  {
    assert Bytes(ops, a, a) == [];
  }

  lemma BytesJoined(all: seq<Op>, ops: seq<Op>, a: nat)
    requires a <= |all|
    ensures Bytes(all + ops, a, |all + ops|) == Bytes(all, a, |all|) + Bytes(ops, 0, |ops|)
  {
    hide Bytes;
    var all' := all + ops;
    BytesSplit(all', a, |all|, |all'|);
    assert all'[a..|all|] == all[a..|all|] && all'[|all|..|all'|] == ops[0..|ops|];
    BytesMatch(all, all', a, |all|, 0);
    BytesMatch(ops, all', 0, |ops|, |all|);
  }

  lemma OneBytes(op: Op)
    ensures Bytes([op], 0, 1) == op.bytes
  {
    assert Bytes([op], 0, 0) == [];
  }

  /** More operations extend the last list and no other. */
  lemma PartitionExtended(all: seq<Op>, starts: seq<nat>, stack: seq<seq<byte>>, ops: seq<Op>)
    requires Partition(all, starts, stack)
    ensures Partition(all + ops, starts, Extended(stack, Bytes(ops, 0, |ops|)))
  {
    hide Bytes;
    forall j | 0 <= j < |starts|
      ensures var all', stack' := all + ops, Extended(stack, Bytes(ops, 0, |ops|));
              starts[j] < End(all', starts, j) <= |all'| && all'[starts[j]].bytes == []
              && stack'[j] == Bytes(all', starts[j], End(all', starts, j))
    {
      PartExtended(all, starts, stack, ops, j);
    }
  }

  lemma PartExtended(all: seq<Op>, starts: seq<nat>, stack: seq<seq<byte>>, ops: seq<Op>, j: nat)
    requires Partition(all, starts, stack) && j < |starts|
    ensures var all', stack' := all + ops, Extended(stack, Bytes(ops, 0, |ops|));
            starts[j] < End(all', starts, j) <= |all'| && all'[starts[j]].bytes == []
            && stack'[j] == Bytes(all', starts[j], End(all', starts, j))
  {
    hide Bytes, Partition;
    PartOf(all, starts, stack, j);
    StartsBelow(all, starts, stack);
    var all', e := all + ops, End(all, starts, j);
    if j + 1 < |starts| {
      assert starts[j + 1] < End(all, starts, j + 1);
      assert all[starts[j]..e] == all'[starts[j]..e];
      BytesMatch(all, all', starts[j], e, 0);
    } else {
      BytesJoined(all, ops, starts[j]);
    }
  }

  lemma ChainExtended(all: seq<Op>, starts: seq<nat>, stack: seq<seq<byte>>, frames: seq<State>, top: State?, ops: seq<Op>)
    requires Partition(all, starts, stack) && Chain(all, starts, stack, frames, top)
    ensures Partition(all + ops, starts, Extended(stack, Bytes(ops, 0, |ops|)))
    ensures Chain(all + ops, starts, Extended(stack, Bytes(ops, 0, |ops|)), frames, top)
  {
    PartitionExtended(all, starts, stack, ops);
    StartsBelow(all, starts, stack);
    hide Bytes, Partition;
    forall j | 0 <= j < |frames|
      ensures FrameHolds(all + ops, starts, Extended(stack, Bytes(ops, 0, |ops|)), frames, j)
    {
      assert FrameHolds(all, starts, stack, frames, j);
    }
  }

  /** A fork adds a list of its own, whose state frame holds the one put aside. */
  lemma Forked(all: seq<Op>, starts: seq<nat>, stack: seq<seq<byte>>, frames: seq<State>, top: State?, op: Op, frame: State)
    requires Partition(all, starts, stack) && Chain(all, starts, stack, frames, top) && op.bytes == []
    requires frame.head == all[starts[|starts| - 1]] && frame.tail == all[|all| - 1]
    requires frame.len == |stack[|stack| - 1]| && frame.next == top
    ensures Partition(all + [op], starts + [|all|], stack + [[]])
    ensures Chain(all + [op], starts + [|all|], stack + [[]], frames + [frame], frame)
  {
    hide Bytes;
    forall j | 0 <= j <= |starts|
      ensures var all', starts', stack' := all + [op], starts + [|all|], stack + [[]];
              starts'[j] < End(all', starts', j) <= |all'| && all'[starts'[j]].bytes == []
              && stack'[j] == Bytes(all', starts'[j], End(all', starts', j))
    {
      ForkedPart(all, starts, stack, op, j);
    }
    ChainForked(all, starts, stack, frames, top, op, frame);
  }

  lemma ForkedPart(all: seq<Op>, starts: seq<nat>, stack: seq<seq<byte>>, op: Op, j: nat)
    requires Partition(all, starts, stack) && op.bytes == [] && j <= |starts|
    ensures var all', starts', stack' := all + [op], starts + [|all|], stack + [[]];
            starts'[j] < End(all', starts', j) <= |all'| && all'[starts'[j]].bytes == []
            && stack'[j] == Bytes(all', starts'[j], End(all', starts', j))
  {
    hide Bytes, Partition;
    StartsBelow(all, starts, stack);
    var all' := all + [op];
    if j < |starts| {
      PartOf(all, starts, stack, j);
      var e := End(all, starts, j);
      assert all[starts[j]..e] == all'[starts[j]..e];
      BytesMatch(all, all', starts[j], e, 0);
    } else {
      NoBytes(all', |all|, |all'|);
    }
  }

  lemma ChainForked(all: seq<Op>, starts: seq<nat>, stack: seq<seq<byte>>, frames: seq<State>, top: State?, op: Op, frame: State)
    requires Partition(all, starts, stack) && Chain(all, starts, stack, frames, top)
    requires Partition(all + [op], starts + [|all|], stack + [[]])
    requires frame.head == all[starts[|starts| - 1]] && frame.tail == all[|all| - 1]
    requires frame.len == |stack[|stack| - 1]| && frame.next == top
    ensures Chain(all + [op], starts + [|all|], stack + [[]], frames + [frame], frame)
  {
    StartsBelow(all, starts, stack);
    ChainTop(all, starts, stack, frames, top);
    FramesKept(all, starts, stack, frames, top, op, frame);
    StartsBelow(all, starts, stack);
    FrameNew(all, starts, stack, frames, op, frame);
    hide Partition, Bytes, FrameHolds, End;
    var all', starts', stack', frames' := all + [op], starts + [|all|], stack + [[]], frames + [frame];
    forall j | 0 <= j < |frames'| ensures FrameHolds(all', starts', stack', frames', j) {
      if j == |frames| {} else {}
    }
  }

  lemma FramesKept(all: seq<Op>, starts: seq<nat>, stack: seq<seq<byte>>, frames: seq<State>, top: State?, op: Op, frame: State)
    requires Partition(all, starts, stack) && Chain(all, starts, stack, frames, top)
    ensures forall j :: 0 <= j < |frames| ==> FrameHolds(all + [op], starts + [|all|], stack + [[]], frames + [frame], j)
  {
    hide Partition, FrameHolds;
    forall j | 0 <= j < |frames|
      ensures FrameHolds(all + [op], starts + [|all|], stack + [[]], frames + [frame], j)
    {
      FrameKept(all, starts, stack, frames, op, frame, j);
    }
  }

  lemma FrameNew(all: seq<Op>, starts: seq<nat>, stack: seq<seq<byte>>, frames: seq<State>, op: Op, frame: State)
    requires |frames| + 1 == |starts| == |stack| && starts[|frames|] < |all|
    requires frame.head == all[starts[|frames|]] && frame.tail == all[|all| - 1] && frame.len == |stack[|frames|]|
    requires frame.next == if frames == [] then null else frames[|frames| - 1]
    ensures FrameHolds(all + [op], starts + [|all|], stack + [[]], frames + [frame], |frames|)
  {}

  lemma FrameKept(all: seq<Op>, starts: seq<nat>, stack: seq<seq<byte>>, frames: seq<State>, op: Op, frame: State, j: nat)
    requires FrameHolds(all, starts, stack, frames, j)
    ensures FrameHolds(all + [op], starts + [|all|], stack + [[]], frames + [frame], j)
  {}

  /** Without its last list the partition is that of the states put aside. */
  lemma PartitionDropped(all: seq<Op>, starts: seq<nat>, stack: seq<seq<byte>>, frames: seq<State>, top: State?)
    requires Partition(all, starts, stack) && Chain(all, starts, stack, frames, top) && frames != []
    ensures var n, b := |frames|, starts[|frames|];
            && b < |all|
            && Partition(all[..b], starts[..n], stack[..n])
            && Chain(all[..b], starts[..n], stack[..n], frames[..n - 1], frames[n - 1].next)
            && FrameHolds(all, starts, stack, frames, n - 1)
  {
    hide Bytes;
    var n, b := |frames|, starts[|frames|];
    StartsBelow(all, starts, stack);
    forall j | 0 <= j < n
      ensures starts[..n][j] < End(all[..b], starts[..n], j) <= b && all[..b][starts[j]].bytes == []
              && stack[..n][j] == Bytes(all[..b], starts[j], End(all[..b], starts[..n], j))
    {
      PartDropped(all, starts, stack, j, n);
    }
    ChainDropped(all, starts, stack, frames, top);
  }

  lemma {:induction false} StartsRise(all: seq<Op>, starts: seq<nat>, stack: seq<seq<byte>>, j: nat, n: nat)
    requires Partition(all, starts, stack) && j < n < |starts|
    ensures starts[j] < End(all, starts, j) <= starts[n] < |all| && End(all, starts, j) == starts[j + 1]
    decreases n
  {
    hide Partition;
    if j + 1 < n { StartsRise(all, starts, stack, j, n - 1); }
    PartOf(all, starts, stack, j);
    PartOf(all, starts, stack, n - 1);
    PartOf(all, starts, stack, n);
  }

  lemma LastStart(all: seq<Op>, starts: seq<nat>, stack: seq<seq<byte>>)
    requires Partition(all, starts, stack)
    ensures |starts| >= 1 && forall k :: k in starts ==> k <= starts[|starts| - 1]
  {
    hide Bytes;
    assert |starts| >= 1;
    hide Partition, End;
    var n := |starts| - 1;
    forall j | 0 <= j < n ensures starts[j] <= starts[n] {
      StartsRise(all, starts, stack, j, n);
    }
  }

  lemma PartOf(all: seq<Op>, starts: seq<nat>, stack: seq<seq<byte>>, j: nat)
    requires Partition(all, starts, stack) && j < |starts|
    ensures |stack| == |starts|
    ensures starts[j] < End(all, starts, j) <= |all| && all[starts[j]].bytes == []
    ensures stack[j] == Bytes(all, starts[j], End(all, starts, j))
  {
    hide Bytes;
  }

  lemma PartDropped(all: seq<Op>, starts: seq<nat>, stack: seq<seq<byte>>, j: nat, n: nat)
    requires Partition(all, starts, stack) && j < n < |starts|
    ensures var b := starts[n];
            && b <= |all|
            && starts[j] < End(all[..b], starts[..n], j) <= b && all[..b][starts[j]].bytes == []
            && stack[j] == Bytes(all[..b], starts[j], End(all[..b], starts[..n], j))
  {
    hide *;
    StartsRise(all, starts, stack, j, n);
    PartOf(all, starts, stack, j);
    var e, b := End(all, starts, j), starts[n];
    EndDropped(all, starts, j, n);
    assert all[starts[j]..e] == all[..b][starts[j]..e];
    BytesMatch(all, all[..b], starts[j], e, 0);
  }

  lemma EndDropped(all: seq<Op>, starts: seq<nat>, j: nat, n: nat)
    requires j < n < |starts| && starts[n] <= |all|
    ensures End(all[..starts[n]], starts[..n], j) == End(all, starts, j)
  {}

  lemma ChainDropped(all: seq<Op>, starts: seq<nat>, stack: seq<seq<byte>>, frames: seq<State>, top: State?)
    requires Partition(all, starts, stack) && Chain(all, starts, stack, frames, top) && frames != []
    requires var n, b := |frames|, starts[|frames|]; b < |all| && Partition(all[..b], starts[..n], stack[..n])
    ensures var n, b := |frames|, starts[|frames|];
            && Chain(all[..b], starts[..n], stack[..n], frames[..n - 1], frames[n - 1].next)
            && FrameHolds(all, starts, stack, frames, n - 1)
  {
    var n, b := |frames|, starts[|frames|];
    assert FrameHolds(all, starts, stack, frames, n - 1);
    var frames' := frames[..n - 1];
    forall j | 0 <= j < |frames'|
      ensures FrameHolds(all[..b], starts[..n], stack[..n], frames', j)
    {
      FrameDropped(all, starts, stack, frames, j);
    }
  }

  lemma FrameDropped(all: seq<Op>, starts: seq<nat>, stack: seq<seq<byte>>, frames: seq<State>, j: nat)
    requires Partition(all, starts, stack) && |frames| + 1 == |starts| && j + 1 < |frames|
    requires FrameHolds(all, starts, stack, frames, j)
    ensures var n := |frames|;
            starts[n] < |all| && FrameHolds(all[..starts[n]], starts[..n], stack[..n], frames[..n - 1], j)
  {
    hide Partition, End;
    StartsRise(all, starts, stack, j, |frames|);
    StartsRise(all, starts, stack, j + 1, |frames|);
    CutFrame(all, starts, stack, frames, j, |frames|);
  }

  lemma CutFrame(all: seq<Op>, starts: seq<nat>, stack: seq<seq<byte>>, frames: seq<State>, j: nat, n: nat)
    requires j + 1 < n <= |frames| && n < |starts| && FrameHolds(all, starts, stack, frames, j)
    requires starts[j] < starts[j + 1] <= starts[n] <= |all|
    ensures FrameHolds(all[..starts[n]], starts[..n], stack[..n], frames[..n - 1], j)
  {}

  /** The bytes of the last state are those of the operations after its first. */
  lemma LastPart(all: seq<Op>, starts: seq<nat>, stack: seq<seq<byte>>)
    requires Partition(all, starts, stack)
    ensures |starts| == |stack| >= 1 && starts[|starts| - 1] < |all|
    ensures var b := starts[|starts| - 1];
            Bytes(all[b + 1..], 0, |all| - b - 1) == stack[|stack| - 1]
  {
    hide *;
    StartsBelow(all, starts, stack);
    var b := starts[|starts| - 1];
    PartOf(all, starts, stack, |starts| - 1);
    LastEnd(all, starts);
    NoBytes(all, b, b + 1);
    BytesSplit(all, b, b + 1, |all|);
    var rest := all[b + 1..];
    assert rest[0..|rest|] == all[b + 1..|all|];
    BytesMatch(rest, all, 0, |rest|, b + 1);
  }

  lemma LastEnd(all: seq<Op>, starts: seq<nat>)
    requires |starts| >= 1
    ensures End(all, starts, |starts| - 1) == |all|
  {}

  lemma StartsBelow(all: seq<Op>, starts: seq<nat>, stack: seq<seq<byte>>)
    requires Partition(all, starts, stack)
    ensures |starts| == |stack| >= 1 && |all| >= 1 && starts[0] == 0
    ensures forall j :: 0 <= j < |starts| ==> starts[j] < End(all, starts, j) <= |all|
    ensures starts[|starts| - 1] < |all|
  {
    hide Bytes;
  }
}
