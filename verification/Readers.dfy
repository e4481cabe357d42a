/** The wire format reader: a position moving over a fixed buffer. */
module Readers {
  import opened Bits
  import opened Buffers
  import opened Varints
  import opened Long
  import opened Utf8Codec

  /** A call that returns, or one that throws. */
  datatype Outcome<+T> = Return(value: T) | Throw(error: Error)

  function ReadInt32(buf: seq<byte>, pos: nat): (r: Read<int>)
    ensures r.Ok? ==> pos < r.pos <= |buf|
  {
    match ReadU32(buf, pos)
    case Err(e) => Err(e)
    case Ok(v, p) => Ok(ToInt32(v), p)
  }

  function ReadSInt32(buf: seq<byte>, pos: nat): (r: Read<int>)
    ensures r.Ok? ==> pos < r.pos <= |buf|
  {
    match ReadU32(buf, pos)
    case Err(e) => Err(e)
    case Ok(v, p) => Ok(UnZigZag(v), p)
  }

  function ReadBool(buf: seq<byte>, pos: nat): (r: Read<bool>)
    ensures r.Ok? ==> pos < r.pos <= |buf|
  {
    match ReadU32(buf, pos)
    case Err(e) => Err(e)
    case Ok(v, p) => Ok(v != 0, p)
  }

  function ReadInt64(buf: seq<byte>, pos: nat, unsigned: bool): (r: Read<int>)
    ensures r.Ok? ==> pos < r.pos <= |buf| + 1
    ensures r.Ok? ==> (r.pos == |buf| + 1 <==> pos + 3 == |buf| && EndsOpen(buf))
  {
    match ReadU64(buf, pos)
    case Err(e) => Err(e)
    case Ok(n, p) => Ok(if unsigned then n else Signed64(n), p)
  }

  function ReadSInt64(buf: seq<byte>, pos: nat): (r: Read<int>)
    ensures r.Ok? ==> pos < r.pos <= |buf| + 1
    ensures r.Ok? ==> (r.pos == |buf| + 1 <==> pos + 3 == |buf| && EndsOpen(buf))
  {
    match ReadU64(buf, pos)
    case Err(e) => Err(e)
    case Ok(n, p) => Ok(UnZigZag(n), p)
  }

  /** A call did what the specification of the read says, position included. */
  ghost predicate Did<T>(o: Outcome<T>, spec: Read<T>, pos: nat) {
    match spec
    case Ok(v, p) => o == Return(v) && pos == p
    case Err(e) => o == Throw(e)
  }

  function Fixed32(s: seq<byte>): (n: u32)
    requires |s| == 4
  {
    var b0: int, b1: int, b2: int, b3: int := s[0], s[1], s[2], s[3];
    b0 + 0x100 * b1 + 0x1_0000 * b2 + 0x100_0000 * b3
  }

  function Fixed64(s: seq<byte>): (n: nat)
    requires |s| == 8
    ensures n < TWO64
  {
    Fixed32(s[..4]) + TWO32 * Fixed32(s[4..])
  }

  function Take(buf: seq<byte>, pos: nat, n: nat): (r: Read<seq<byte>>)
    ensures r.Ok? ==> pos <= r.pos <= |buf| && |r.val| == n && r.pos == pos + n
  {
    if pos + n > |buf| then Err(OutOfRange) else Ok(buf[pos..pos + n], pos + n)
  }

  function ReadFixed32(buf: seq<byte>, pos: nat): (r: Read<u32>)
    ensures r.Ok? ==> pos < r.pos <= |buf|
  {
    if pos + 4 > |buf| then Err(OutOfRange) else Ok(Fixed32(buf[pos..pos + 4]), pos + 4)
  }

  function ReadFixed64(buf: seq<byte>, pos: nat): (r: Read<nat>)
    ensures r.Ok? ==> pos < r.pos <= |buf|
  {
    if pos + 8 > |buf| then Err(OutOfRange) else Ok(Fixed64(buf[pos..pos + 8]), pos + 8)
  }

  /** Length-delimited bytes. */
  function ReadBytes(buf: seq<byte>, pos: nat): (r: Read<seq<byte>>)
    ensures r.Ok? ==> pos < r.pos <= |buf|
  {
    match ReadU32(buf, pos)
    case Err(e) => Err(e)
    case Ok(n, p) => Take(buf, p, n)
  }

  function ReadString(buf: seq<byte>, pos: nat): (r: Read<units>)
    ensures r.Ok? ==> pos < r.pos <= |buf|
  {
    match ReadBytes(buf, pos)
    case Err(e) => Err(e)
    case Ok(bytes, p) => Ok(ReadUtf8(bytes, 0, |bytes|), p)
  }

  /** `skip()` without a length: any number of continuation bytes and one more. */
  function SkipVarint(buf: seq<byte>, pos: nat): (r: Read<()>)
    ensures r.Ok? ==> pos < r.pos <= |buf|
    decreases |buf| - pos
  {
    if pos >= |buf| then Err(OutOfRange)
    else if buf[pos] >= 128 then SkipVarint(buf, pos + 1)
    else Ok((), pos + 1)
  }

  function SkipBytes(buf: seq<byte>, pos: nat, n: nat): (r: Read<()>)
    ensures r.Ok? ==> r.pos == pos + n <= |buf|
  {
    if pos + n > |buf| then Err(OutOfRange) else Ok((), pos + n)
  }

  /** The body of a field of any wire type; a group runs to the end tag that balances it. */
  function SkipType(buf: seq<byte>, pos: nat, wireType: nat): (r: Read<()>)
    ensures r.Ok? ==> pos < r.pos <= |buf|
    decreases |buf| - pos, 1
  {
    if wireType == 0 then SkipVarint(buf, pos)
    else if wireType == 1 then SkipBytes(buf, pos, 8)
    else if wireType == 2 then
      match ReadU32(buf, pos)
      case Err(e) => Err(e)
      case Ok(n, p) => SkipBytes(buf, p, n)
    else if wireType == 3 then SkipGroup(buf, pos)
    else if wireType == 5 then SkipBytes(buf, pos, 4)
    else Err(InvalidWireType)
  }

  function SkipGroup(buf: seq<byte>, pos: nat): (r: Read<()>)
    ensures r.Ok? ==> pos < r.pos <= |buf|
    decreases |buf| - pos, 0
  {
    match ReadU32(buf, pos)
    case Err(e) => Err(e)
    case Ok(t, p) =>
      if t % 8 == 4 then Ok((), p)
      else match SkipType(buf, p, t % 8)
           case Err(e) => Err(e)
           case Ok(_, q) => SkipGroup(buf, q)
  }

  lemma {:induction false} GroupsAppend(buf: seq<byte>, pos: nat, n: nat)
    ensures Groups(buf, pos, n + 1) == Groups(buf, pos, n) + Pow2(7 * n) * (At(buf, pos + n) % 128)
    decreases n
  {
    var g := At(buf, pos + n) % 128;
    if n == 0 {
      assert Groups(buf, pos + 1, 0) == 0;
    } else {
      GroupsAppend(buf, pos + 1, n - 1);
      Pow2Step7(n - 1);
      Distribute(Groups(buf, pos + 1, n - 1), Pow2(7 * (n - 1)), g);
    }
  }

  lemma Distribute(a: nat, p: nat, g: nat)
    ensures 128 * (a + p * g) == 128 * a + 128 * p * g
  {}

  lemma {:induction false} GroupsBound(buf: seq<byte>, pos: nat, n: nat)
    ensures Groups(buf, pos, n) < Pow2(7 * n)
    decreases n
  {
    if n > 0 {
      GroupsBound(buf, pos + 1, n - 1);
      Pow2Step7(n - 1);
    }
  }

  /** `value | (b & 127) << k`, when value has no bit from k up. */
  lemma OrGroup(value: nat, b: byte, k: nat)
    requires k <= 32 && value < Pow2(k)
    ensures Or(value, Shl(And(b, 127), k)) == value + b % 128 * Pow2(k) % TWO32
  {
    hide Or, And, Pow2;
    AndSeven(b);
    ShiftedLow(b % 128, k);
    OrDisjoint(value, b % 128 * Pow2(k) % TWO32, k);
  }

  lemma AndSeven(b: nat)
    ensures And(b, 127) == b % 128 && And(b, 15) == b % 16 && And(b, 7) == b % 8
  {
    hide And;
    AndOnes(b, 7);
    AndOnes(b, 4);
    AndOnes(b, 3);
  }

  lemma ShiftedLow(x: nat, k: nat)
    requires k <= 32
    ensures x * Pow2(k) % TWO32 % Pow2(k) == 0
  {
    hide Pow2;
    var p, q := Pow2(k), Pow2(32 - k);
    Pow2Add(k, 32 - k);
    Pow2Literals();
    ModMultiple(x, p, q);
  }

  lemma ModMultiple(x: nat, p: nat, q: nat)
    requires p >= 1 && q >= 1
    ensures p * q >= 1 && x * p % (p * q) == x % q * p && x * p % (p * q) % p == 0
  {
    MulSign(q, p);
    var d, r := x / q, x % q;
    assert x == d * q + r;
    assert x * p == d * (p * q) + r * p by { assert x * p == d * q * p + r * p; assert d * q * p == d * (p * q); }
    assert r * p < p * q by { MulSign(q - r, p); assert p * q - r * p == (q - r) * p; }
    assert r * p >= 0;
    ModUnique(x * p, p * q, d, r * p);
    ModUnique(r * p, p, r, 0);
  }

  lemma SevenBitPowers()
    ensures Pow2(0) == 1 && Pow2(7) == 0x80 && Pow2(14) == 0x4000 && Pow2(21) == 0x20_0000
    ensures Pow2(28) == 0x1000_0000 && Pow2(35) == 8 * TWO32 && Pow2(70) == 64 * TWO64
  {
    hide Pow2;
    FirstPowers();
    Pow2Add(7, 7);
    Pow2Add(14, 7);
    Pow2Add(14, 14);
    Pow2Literals();
    Pow2Add(28, 7);
  }

  lemma FirstPowers()
    ensures Pow2(0) == 1 && Pow2(7) == 128 && Pow2(4) == 16
  {}

  /** Having read i continuation bytes at start, with value the number of their groups. */
  ghost predicate Partial(buf: seq<byte>, start: nat, i: nat, max: nat, value: nat) {
    && i <= max
    && Run(buf, start, max) == i + Run(buf, start + i, max - i)
    && value == Groups(buf, start, i)
  }

  lemma PartialStep(buf: seq<byte>, start: nat, i: nat, max: nat, value: nat)
    requires Partial(buf, start, i, max, value) && i < max
    ensures value < Pow2(7 * i)
    ensures Groups(buf, start, i + 1) == value + Pow2(7 * i) * (At(buf, start + i) % 128)
    ensures At(buf, start + i) < 128 ==> Run(buf, start, max) == i
    ensures At(buf, start + i) >= 128 ==> Partial(buf, start, i + 1, max, Groups(buf, start, i + 1))
  {
    GroupsAppend(buf, start, i);
    GroupsBound(buf, start, i);
    assert start + i + 1 == start + (i + 1);
  }

  class Reader {
    const buf: seq<byte>
    const len: nat
    var pos: nat

    ghost predicate Valid()
      reads this
    {
      len == |buf|
    }

    constructor (buffer: seq<byte>)
      ensures Valid() && buf == buffer && pos == 0
    {
      buf := buffer;
      pos := 0;
      len := |buffer|;
    }

    /** `value = (value | (buf[pos] & 127) << shift) >>> 0; if (buf[pos++] < 128) return` */
    method Group(value: nat, shift: nat, ghost start: nat, ghost i: nat) returns (v: nat, last: bool)
      requires Valid() && i < 4 && shift == 7 * i && pos == start + i
      requires Partial(buf, start, i, 5, value)
      modifies this
      ensures pos == start + i + 1
      ensures if last then ReadU32(buf, start) == Ok(v, pos) else Partial(buf, start, i + 1, 5, v)
    {
      hide *;
      OneGroup(buf, start, i, value);
      v := Or(value, Shl(And(At(buf, pos), 127), shift));
      last := At(buf, pos) < 128;
      pos := pos + 1;
    }

    method UInt32() returns (o: Outcome<u32>)
      requires Valid()
      modifies this
      ensures Did(o, ReadU32(buf, old(pos)), pos) && (o.Throw? ==> pos == len)
    {
      hide Or, And, Shl, Pow2, ReadU32, Run, Groups;
      ghost var start := pos;
      assert Partial(buf, start, 0, 5, 0) by { StartPartial(buf, start, 5); }
      var value, last := Group(0, 0, start, 0);
      if last { return Return(value); }
      value, last := Group(value, 7, start, 1);
      if last { return Return(value); }
      value, last := Group(value, 14, start, 2);
      if last { return Return(value); }
      value, last := Group(value, 21, start, 3);
      if last { return Return(value); }
      FifthGroup(buf, start, value);
      value := Or(value, Shl(And(At(buf, pos), 15), 28));
      pos := pos + 1;
      if At(buf, pos - 1) < 128 { return Return(value); }
      pos := pos + 5;
      if pos > len {
        pos := len;
        return Throw(OutOfRange);
      }
      return Return(value);
    }

    method Int32() returns (o: Outcome<int>)
      requires Valid()
      modifies this
      ensures Did(o, ReadInt32(buf, old(pos)), pos)
    {
      hide ReadU32, ToInt32;
      var u := UInt32();
      match u
      case Throw(e) => return Throw(e);
      case Return(v) => return Return(ToInt32(v));
    }

    method SInt32() returns (o: Outcome<int>)
      requires Valid()
      modifies this
      ensures Did(o, ReadSInt32(buf, old(pos)), pos)
    {
      hide ReadU32, UnZigZag;
      var u := UInt32();
      match u
      case Throw(e) => return Throw(e);
      case Return(v) =>
        var s := ZzDecode32(v);
        return Return(s);
    }

    method Bool() returns (o: Outcome<bool>)
      requires Valid()
      modifies this
      ensures Did(o, ReadBool(buf, old(pos)), pos)
    {
      hide ReadU32;
      var u := UInt32();
      match u
      case Throw(e) => return Throw(e);
      case Return(v) => return Return(v != 0);
    }

    /** `lo = (lo | (buf[pos] & 127) << i * 7) >>> 0`, for one of the first four bytes. */
    method LowGroup(bits: LongBits, i: nat, ghost start: nat, ghost max: nat) returns (last: bool)
      requires Valid() && i < 4 && pos == start + i && i < max
      requires bits.hi == 0 && Partial(buf, start, i, max, bits.lo)
      modifies this, bits
      ensures pos == start + i + 1 && bits.hi == 0 && bits.lo == Groups(buf, start, i + 1)
      ensures last == (At(buf, start + i) < 128)
      ensures if last then Run(buf, start, max) == i else Partial(buf, start, i + 1, max, bits.lo)
    {
      hide Or, Shl, And, At, Run, Groups, Partial, Pow2;
      LowGroupValue(buf, start, i, max, bits.lo);
      bits.lo := Or(bits.lo, Shl(And(At(buf, pos), 127), i * 7));
      last := At(buf, pos) < 128;
      pos := pos + 1;
    }

    /** The fifth byte is split between the halves. */
    method MiddleGroup(bits: LongBits, ghost start: nat) returns (last: bool)
      requires Valid() && pos == start + 4
      requires bits.hi == 0 && Partial(buf, start, 4, 10, bits.lo)
      modifies this, bits
      ensures pos == start + 5 && bits.Value() == Groups(buf, start, 5)
      ensures last == (At(buf, start + 4) < 128)
      ensures if last then Run(buf, start, 10) == 4 else Partial(buf, start, 5, 10, bits.Value())
    {
      hide Or, Shl, And, Shr, At, Run, Groups, Partial, Pow2;
      MiddleGroupValue(buf, start, bits.lo);
      bits.lo := Or(bits.lo, Shl(And(At(buf, pos), 127), 28));
      bits.hi := Or(bits.hi, Shr(And(At(buf, pos), 127), 4));
      last := At(buf, pos) < 128;
      pos := pos + 1;
    }

    /** `hi = (hi | (buf[pos] & 127) << i * 7 + 3) >>> 0`, for the sixth to tenth byte. */
    method HighGroup(bits: LongBits, i: nat, ghost start: nat) returns (last: bool)
      requires Valid() && i < 5 && pos == start + 5 + i
      requires Partial(buf, start, 5 + i, 10, bits.Value())
      modifies this, bits
      ensures pos == start + 6 + i
      ensures last == (At(buf, start + 5 + i) < 128)
      ensures last ==> Run(buf, start, 10) == 5 + i && bits.Value() == Groups(buf, start, 6 + i) % TWO64
      ensures !last ==> if i == 4 then Run(buf, start, 10) == 10 else Partial(buf, start, 6 + i, 10, bits.Value())
    {
      hide Or, Shl, And, At, Run, Groups, Partial, Pow2;
      HighGroupValue(buf, start, i, bits.lo, bits.hi);
      bits.hi := Or(bits.hi, Shl(And(At(buf, pos), 127), i * 7 + 3));
      last := At(buf, pos) < 128;
      pos := pos + 1;
    }

    method ReadLongVarint() returns (o: Outcome<LongBits>)
      requires Valid()
      modifies this
      ensures match ReadU64(buf, old(pos))
              case Ok(n, p) => o.Return? && fresh(o.value) && o.value.Value() == n && pos == p
              case Err(e) => o == Throw(e)
    {
      hide Partial, Run, Groups, At;
      ghost var start := pos;
      StartPartial(buf, start, 10);
      StartPartial(buf, start, 3);
      var bits := new LongBits(0, 0);
      var i := 0;
      if len - pos > 4 {
        while i < 4
          invariant i <= 4 && pos == start + i && bits.hi == 0
          invariant Partial(buf, start, i, 10, bits.lo)
        {
          var last := LowGroup(bits, i, start, 10);
          if last { SmallGroups(buf, start, i + 1); return Return(bits); }
          i := i + 1;
        }
        var last := MiddleGroup(bits, start);
        if last { SmallGroups(buf, start, 5); return Return(bits); }
        i := 0;
      } else {
        while i < 3
          invariant i <= 3 && pos == start + i && bits.hi == 0
          invariant Partial(buf, start, i, 3, bits.lo)
          invariant i > 0 ==> start + i <= |buf|
        {
          if pos >= len { RunPastEnd(buf, start, i, 3, bits.lo); return Throw(OutOfRange); }
          var last := LowGroup(bits, i, start, 3);
          if last { return Return(bits); }
          i := i + 1;
        }
        FourthGroup(buf, start, bits.lo);
        bits.lo := Or(bits.lo, Shl(And(At(buf, pos), 127), i * 7));
        pos := pos + 1;
        return Return(bits);
      }
      if len - pos > 4 {
        while i < 5
          invariant i <= 5 && pos == start + 5 + i
          invariant if i < 5 then Partial(buf, start, 5 + i, 10, bits.Value()) else Run(buf, start, 10) == 10
        {
          var last := HighGroup(bits, i, start);
          if last { return Return(bits); }
          i := i + 1;
        }
      } else {
        while i < 5
          invariant i <= 5 && pos == start + 5 + i
          invariant if i < 5 then Partial(buf, start, 5 + i, 10, bits.Value()) else Run(buf, start, 10) == 10
          invariant i == 5 ==> start + 10 <= |buf|
        {
          if pos >= len { RunPastEnd(buf, start, 5 + i, 10, bits.Value()); return Throw(OutOfRange); }
          var last := HighGroup(bits, i, start);
          if last { return Return(bits); }
          i := i + 1;
        }
      }
      return Throw(InvalidVarint);
    }

    method Int64(unsigned: bool) returns (o: Outcome<int>)
      requires Valid()
      modifies this
      ensures Did(o, ReadInt64(buf, old(pos), unsigned), pos)
    {
      hide ReadU64, Signed64;
      var b := ReadLongVarint();
      match b
      case Throw(e) => return Throw(e);
      case Return(bits) =>
        var n := bits.ToNumber(unsigned);
        return Return(n);
    }

    method SInt64() returns (o: Outcome<int>)
      requires Valid()
      modifies this
      ensures Did(o, ReadSInt64(buf, old(pos)), pos)
    {
      hide ReadU64, Signed64, UnZigZag;
      var b := ReadLongVarint();
      match b
      case Throw(e) => return Throw(e);
      case Return(bits) =>
        bits.ZzDecode();
        var n := bits.ToNumber(false);
        return Return(n);
    }

    /** `(buf[end - 4] | buf[end - 3] << 8 | buf[end - 2] << 16 | buf[end - 1] << 24) >>> 0` */
    method ReadFixed32End(end: nat) returns (n: u32)
      requires 4 <= end <= |buf|
      ensures n == Fixed32(buf[end - 4..end])
    {
      hide Or, Shl;
      JoinBytes(buf[end - 4], buf[end - 3], buf[end - 2], buf[end - 1]);
      n := Or(Or(Or(buf[end - 4], Shl(buf[end - 3], 8)), Shl(buf[end - 2], 16)), Shl(buf[end - 1], 24));
    }

    method UFixed32() returns (o: Outcome<u32>)
      requires Valid()
      modifies this
      ensures Did(o, ReadFixed32(buf, old(pos)), pos)
    {
      hide Fixed32;
      if pos + 4 > len { return Throw(OutOfRange); }
      pos := pos + 4;
      var n := ReadFixed32End(pos);
      return Return(n);
    }

    method UFixed64() returns (o: Outcome<LongBits>)
      requires Valid()
      modifies this
      ensures match ReadFixed64(buf, old(pos))
              case Ok(n, p) => o.Return? && o.value.Value() == n && pos == p
              case Err(e) => o == Throw(e)
    {
      hide Fixed32;
      if pos + 8 > len { return Throw(OutOfRange); }
      assert buf[pos..pos + 8][..4] == buf[pos..pos + 4] && buf[pos..pos + 8][4..] == buf[pos + 4..pos + 8];
      pos := pos + 4;
      var lo := ReadFixed32End(pos);
      pos := pos + 4;
      var hi := ReadFixed32End(pos);
      var bits := new LongBits(lo, hi);
      return Return(bits);
    }

    /** The bytes of a float or a double. */
    method Raw(n: nat) returns (o: Outcome<seq<byte>>)
      requires Valid()
      modifies this
      ensures Did(o, Take(buf, old(pos), n), pos)
    {
      if pos + n > len { return Throw(OutOfRange); }
      pos := pos + n;
      return Return(buf[pos - n..pos]);
    }

    method Bytes() returns (o: Outcome<seq<byte>>)
      requires Valid()
      modifies this
      ensures Did(o, ReadBytes(buf, old(pos)), pos)
    {
      hide ReadU32;
      var l := UInt32();
      match l
      case Throw(e) => return Throw(e);
      case Return(length) =>
        var start, end := pos, pos + length;
        if end > len { return Throw(OutOfRange); }
        pos := pos + length;
        return Return(buf[start..end]);
    }

    method String() returns (o: Outcome<units>)
      requires Valid()
      modifies this
      ensures Did(o, ReadString(buf, old(pos)), pos)
    {
      hide ReadBytes, ReadUtf8;
      var b := Bytes();
      match b
      case Throw(e) => return Throw(e);
      case Return(bytes) =>
        var s := Utf8Codec.Read(bytes, 0, |bytes|);
        return Return(s);
    }

    method Skip(length: nat) returns (o: Outcome<()>)
      requires Valid()
      modifies this
      ensures Did(o, SkipBytes(buf, old(pos), length), pos)
    {
      if pos + length > len { return Throw(OutOfRange); }
      pos := pos + length;
      return Return(());
    }

    /** A do-while loop over the continuation bits. */
    method SkipOne() returns (o: Outcome<()>)
      requires Valid()
      modifies this
      ensures Did(o, SkipVarint(buf, old(pos)), pos)
    {
      ghost var spec := SkipVarint(buf, pos);
      var more := true;
      while more
        invariant if more then SkipVarint(buf, pos) == spec else spec == Ok((), pos)
        decreases if more then 1 + (len - pos) else 0
      {
        if pos >= len { return Throw(OutOfRange); }
        HighBit(buf[pos]);
        more := And(buf[pos], 128) != 0;
        pos := pos + 1;
      }
      return Return(());
    }

    method SkipField(wireType: nat) returns (o: Outcome<()>)
      requires Valid()
      modifies this
      ensures Did(o, SkipType(buf, old(pos), wireType), pos)
      decreases len - pos, 1
    {
      hide ReadU32, SkipVarint, SkipBytes;
      if wireType == 0 {
        o := SkipOne();
      } else if wireType == 1 {
        o := Skip(8);
      } else if wireType == 2 {
        var n := UInt32();
        if n.Throw? { return Throw(n.error); }
        o := Skip(n.value);
      } else if wireType == 3 {
        ghost var start, spec := pos, SkipGroup(buf, pos);
        var t := UInt32();
        if t.Throw? { return Throw(t.error); }
        while t.value % 8 != 4
          invariant t.Return? && start < pos <= len
          invariant spec == if t.value % 8 == 4 then Ok((), pos) else
                            match SkipType(buf, pos, t.value % 8) case Err(e) => Err(e) case Ok(_, q) => SkipGroup(buf, q)
          decreases len - pos
        {
          var inner := SkipField(t.value % 8);
          if inner.Throw? { return Throw(inner.error); }
          t := UInt32();
          if t.Throw? { return Throw(t.error); }
        }
        return Return(());
      } else if wireType == 5 {
        o := Skip(4);
      } else {
        return Throw(InvalidWireType);
      }
    }
  }

  lemma HighBit(b: byte)
    ensures And(b, 128) == if b < 128 then 0 else 128
  {
    SmallPowers();
    FirstPowers();
    hide And;
    AndHigh(b, 8, 7);
  }

  lemma JoinBytes(b0: byte, b1: byte, b2: byte, b3: byte)
    ensures Or(Or(Or(b0, Shl(b1, 8)), Shl(b2, 16)), Shl(b3, 24)) == Fixed32([b0, b1, b2, b3])
  {
    SmallPowers();
    hide Or, Shl, Pow2;
    Pow2Add(8, 8);
    Pow2Add(16, 8);
    Shifts(b1, 8, 0x100);
    Shifts(b2, 16, 0x1_0000);
    Shifts(b3, 24, 0x100_0000);
    FitsTwo32(b1 * 0x100);
    FitsTwo32(b2 * 0x1_0000);
    FitsTwo32(b3 * 0x100_0000);
    OrDisjoint(b0, b1 * 0x100, 8);
    OrDisjoint(b0 + b1 * 0x100, b2 * 0x1_0000, 16);
    OrDisjoint(b0 + b1 * 0x100 + b2 * 0x1_0000, b3 * 0x100_0000, 24);
  }

  lemma LowGroupValue(buf: seq<byte>, start: nat, i: nat, max: nat, lo: nat)
    requires i < 4 && i < max && Partial(buf, start, i, max, lo)
    ensures Or(lo, Shl(And(At(buf, start + i), 127), 7 * i)) == Groups(buf, start, i + 1) < TWO32
    ensures At(buf, start + i) < 128 ==> Run(buf, start, max) == i
    ensures At(buf, start + i) >= 128 ==> Partial(buf, start, i + 1, max, Groups(buf, start, i + 1))
  {
    hide *;
    SmallGroup(buf, start, i);
    PartialStep(buf, start, i, max, lo);
    OrGroup(lo, At(buf, start + i), 7 * i);
    var x := At(buf, start + i) % 128 * Pow2(7 * i);
    assert x == Pow2(7 * i) * (At(buf, start + i) % 128);
    FitsTwo32(x);
  }

  lemma FourthGroup(buf: seq<byte>, start: nat, lo: nat)
    requires Partial(buf, start, 3, 3, lo)
    ensures Or(lo, Shl(And(At(buf, start + 3), 127), 21)) == Groups(buf, start, 4) < TWO32
    ensures Run(buf, start, 3) == 3
  {
    StartPartial(buf, start, 10);
    hide Or, Shl, And, Pow2, Groups, At;
    SmallGroup(buf, start, 3);
    GroupsAppend(buf, start, 3);
    GroupsBound(buf, start, 3);
    OrGroup(lo, At(buf, start + 3), 21);
    var x := At(buf, start + 3) % 128 * Pow2(21);
    assert x == Pow2(21) * (At(buf, start + 3) % 128);
    FitsTwo32(x);
  }

  lemma MiddleGroupValue(buf: seq<byte>, start: nat, lo: u32)
    requires Partial(buf, start, 4, 10, lo)
    ensures var l := Or(lo, Shl(And(At(buf, start + 4), 127), 28));
            var h := Or(0, Shr(And(At(buf, start + 4), 127), 4));
            l < TWO32 && h < TWO32 && l + h * TWO32 == Groups(buf, start, 5)
    ensures At(buf, start + 4) < 128 ==> Run(buf, start, 10) == 4
    ensures At(buf, start + 4) >= 128 ==> Partial(buf, start, 5, 10, Groups(buf, start, 5))
  {
    assert Or(0, Shr(And(At(buf, start + 4), 127), 4)) == Shr(And(At(buf, start + 4), 127), 4);
    hide *;
    var b := At(buf, start + 4);
    SevenBitPowers();
    PartialStep(buf, start, 4, 10, lo);
    OrGroup(lo, b, 28);
    AndSeven(b);
    FirstPowers();
    Shifts(b % 128, 4, 16);
    SplitGroup(lo, b % 128);
  }

  lemma SplitGroup(lo: nat, g: nat)
    requires lo < 0x1000_0000 && g < 128
    ensures lo + g * 0x1000_0000 % TWO32 < TWO32
    ensures lo + g * 0x1000_0000 % TWO32 + g / 16 * TWO32 == lo + 0x1000_0000 * g
  {}

  lemma HighGroupValue(buf: seq<byte>, start: nat, i: nat, lo: u32, hi: u32)
    requires i < 5 && Partial(buf, start, 5 + i, 10, lo + hi * TWO32)
    ensures var h := Or(hi, Shl(And(At(buf, start + 5 + i), 127), 7 * i + 3));
            h < TWO32 && lo + h * TWO32 == Groups(buf, start, 6 + i) % TWO64
    ensures At(buf, start + 5 + i) < 128 ==> Run(buf, start, 10) == 5 + i
    ensures At(buf, start + 5 + i) >= 128 ==>
      if i == 4 then Run(buf, start, 10) == 10
      else Partial(buf, start, 6 + i, 10, Groups(buf, start, 6 + i) % TWO64)
  {
    hide Or, Shl, And, Pow2, Groups, At, Run;
    var p := Pow2(7 * i + 3);
    var g := At(buf, start + 5 + i) % 128;
    assert 5 + i + 1 == 6 + i && start + (5 + i) == start + 5 + i;
    PartialStep(buf, start, 5 + i, 10, lo + hi * TWO32);
    assert 7 * (5 + i) == 7 * i + 3 + 32;
    Pow2Add(7 * i + 3, 32);
    Pow2Literals();
    HighBelow(lo, hi, p);
    OrGroup(hi, At(buf, start + 5 + i), 7 * i + 3);
    ShiftedRoom(hi, g, 7 * i + 3);
    JoinHigh(lo, hi, p, g);
    if i < 4 { SmallGroups(buf, start, 6 + i); }
  }

  lemma HighBelow(lo: u32, hi: u32, p: nat)
    requires lo + hi * TWO32 < p * TWO32
    ensures hi < p
  {}

  /** The part of a shifted group that fits leaves room for the bits below it. */
  lemma ShiftedRoom(hi: nat, g: nat, k: nat)
    requires k <= 32 && hi < Pow2(k)
    ensures (hi + Pow2(k) * g) % TWO32 == hi + g * Pow2(k) % TWO32 < TWO32
  {
    hide Pow2;
    var p, q := Pow2(k), Pow2(32 - k);
    Pow2Add(k, 32 - k);
    Pow2Literals();
    ModMultiple(g, p, q);
    var d, r := g / q, g % q;
    assert g == d * q + r;
    RoomBelow(hi, p, q, TWO32, d, r);
    ModUnique(hi + p * g, TWO32, d, hi + r * p);
  }

  lemma RoomBelow(hi: nat, p: nat, q: nat, n: nat, d: nat, r: nat)
    requires hi < p && r < q && n == p * q
    ensures hi + p * (d * q + r) == d * n + (hi + r * p) && hi + r * p < n
  {
    assert r * p + p <= p * q by { MulSign(q - r, p); assert p * q - r * p == (q - r) * p; }
    assert p * (d * q + r) == p * (d * q) + p * r;
    assert p * (d * q) == d * (p * q);
  }

  lemma JoinHigh(lo: u32, hi: nat, p: nat, g: nat)
    requires (hi + p * g) % TWO32 == hi + g * p % TWO32
    ensures (lo + hi * TWO32 + p * TWO32 * g) % TWO64 == lo + (hi + g * p % TWO32) * TWO32
  {
    var h := hi + p * g;
    assert lo + hi * TWO32 + p * TWO32 * g == lo + h * TWO32 by { assert p * TWO32 * g == p * g * TWO32; }
    JoinHalves(lo, h);
  }

  lemma JoinHalves(lo: u32, h: nat)
    ensures (lo + h * TWO32) % TWO64 == lo + h % TWO32 * TWO32
  {}

  lemma RunPastEnd(buf: seq<byte>, start: nat, i: nat, max: nat, value: nat)
    requires Partial(buf, start, i, max, value) && start + i >= |buf|
    ensures Run(buf, start, max) == max
  {
    PastEnd(buf, start + i, max - i);
  }

  lemma {:induction false} PastEnd(buf: seq<byte>, pos: nat, max: nat)
    requires pos >= |buf|
    ensures Run(buf, pos, max) == max
    decreases max
  {
    if max > 0 { PastEnd(buf, pos + 1, max - 1); }
  }

  lemma SmallGroups(buf: seq<byte>, start: nat, n: nat)
    requires n <= 9
    ensures Groups(buf, start, n) % TWO64 == Groups(buf, start, n)
  {
    hide Groups, Pow2;
    SevenBitPowers();
    GroupsBound(buf, start, n);
    Pow2Add(7 * n, 63 - 7 * n);
    assert Pow2(63) * 2 == TWO64 by { Pow2Literals(); Pow2Add(32, 31); }
    MulSign(Pow2(63 - 7 * n), Pow2(7 * n));
  }

  lemma StartPartial(buf: seq<byte>, start: nat, max: nat)
    ensures Partial(buf, start, 0, max, 0)
  {}

  lemma SmallGroup(buf: seq<byte>, start: nat, i: nat)
    requires i < 4
    ensures Pow2(7 * i) * (At(buf, start + i) % 128) < TWO32
    ensures Groups(buf, start, i + 1) < TWO32
    ensures Run(buf, start, 5) == i ==>
      ReadU32(buf, start) == Ok(Groups(buf, start, i + 1), start + i + 1)
  {
    hide Pow2, Groups;
    SevenBitPowers();
    GroupsBound(buf, start, i + 1);
  }

  lemma OneGroup(buf: seq<byte>, start: nat, i: nat, value: nat)
    requires i < 4 && Partial(buf, start, i, 5, value)
    ensures var v := Or(value, Shl(And(At(buf, start + i), 127), 7 * i));
            if At(buf, start + i) < 128 then ReadU32(buf, start) == Ok(v, start + i + 1)
            else Partial(buf, start, i + 1, 5, v)
  {
    hide *;
    SmallGroup(buf, start, i);
    PartialStep(buf, start, i, 5, value);
    OrGroup(value, At(buf, start + i), 7 * i);
    var x := At(buf, start + i) % 128 * Pow2(7 * i);
    assert x == Pow2(7 * i) * (At(buf, start + i) % 128);
    FitsTwo32(x);
  }

  lemma FifthGroup(buf: seq<byte>, start: nat, value: nat)
    requires Partial(buf, start, 4, 5, value)
    ensures var v := Or(value, Shl(And(At(buf, start + 4), 15), 28));
            v < TWO32 &&
            if At(buf, start + 4) < 128 then ReadU32(buf, start) == Ok(v, start + 5)
            else if start + 10 > |buf| then ReadU32(buf, start) == Err(OutOfRange)
            else ReadU32(buf, start) == Ok(v, start + 10)
  {
    hide Pow2, Groups, Or, And, Shl;
    SevenBitPowers();
    PartialStep(buf, start, 4, 5, value);
    OrHalfGroup(value, At(buf, start + 4));
  }

  /** The fifth byte contributes the four bits that fit. */
  lemma OrHalfGroup(value: nat, b: byte)
    requires value < 0x1000_0000
    ensures Or(value, Shl(And(b, 15), 28)) == value + b % 16 * 0x1000_0000
    ensures (value + 0x1000_0000 * (b % 128)) % TWO32 == value + b % 16 * 0x1000_0000
  {
    hide Or, Shl, And, Pow2;
    SevenBitPowers();
    AndSeven(b);
    Shifts(b % 16, 28, 0x1000_0000);
    FitsTwo32(b % 16 * 0x1000_0000);
    OrDisjoint(value, b % 16 * 0x1000_0000, 28);
    HalfFits(value, b);
  }

  lemma HalfFits(value: nat, b: byte)
    requires value < 0x1000_0000
    ensures (value + 0x1000_0000 * (b % 128)) % TWO32 == value + b % 16 * 0x1000_0000
  {
    var g := b % 128;
    assert g % 16 == b % 16;
    assert value + 0x1000_0000 * g == g / 16 * TWO32 + (value + g % 16 * 0x1000_0000);
    ModUnique(value + 0x1000_0000 * g, TWO32, g / 16, value + g % 16 * 0x1000_0000);
  }
}
