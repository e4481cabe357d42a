/** 64-bit values on two unsigned 32-bit halves. */
module Long {
  import opened Bits
  import opened Varints

  /** The signed number a 64-bit pattern stands for. */
  function Signed64(n: nat): (s: int) {
    if n < TWO64 / 2 then n else n - TWO64
  }

  /** Zig-zag numbering of the integers: 0, -1, 1, -2, 2, ... */
  function ZigZag(s: int): (z: nat) {
    if s >= 0 then 2 * s else -2 * s - 1
  }

  function UnZigZag(z: nat): (s: int)
    ensures ZigZag(s) == z
  {
    if z % 2 == 0 then z / 2 else -(z / 2) - 1
  }

  lemma ZigZagInverse(s: int)
    ensures UnZigZag(ZigZag(s)) == s
  {}

  lemma XorMask(x: u32, on: bool)
    ensures Xor(x, if on then TWO32 - 1 else 0) == if on then TWO32 - 1 - x else x
  {
    Pow2Literals();
    if on { XorOnes(x, 32); }
  }

  /** `(value << 1 ^ value >> 31) >>> 0` */
  method ZzEncode32(value: int) returns (z: u32)
    requires -0x8000_0000 <= value < 0x8000_0000
    ensures z == ZigZag(value)
  {
    XorMask(ToUint32(2 * value), value < 0);
    z := Xor(ToUint32(2 * value), if value < 0 then TWO32 - 1 else 0);
  }

  /** `value >>> 1 ^ -(value & 1) | 0` */
  method ZzDecode32(value: u32) returns (s: int)
    ensures s == UnZigZag(value)
  {
    AndOnes(value, 1);
    XorMask(Shr(value, 1), value % 2 == 1);
    s := ToInt32(Xor(Shr(value, 1), ToUint32(0 - And(value, 1))));
  }

  class LongBits {
    var lo: u32
    var hi: u32

    ghost function Value(): (n: nat)
      reads this
      ensures n < TWO64
    {
      lo + hi * TWO32
    }

    constructor (lo: int, hi: int)
      ensures this.lo == ToUint32(lo) && this.hi == ToUint32(hi)
    {
      this.lo, this.hi := ToUint32(lo), ToUint32(hi);
    }

    /** Every integer becomes its 64-bit two's complement pattern. Zero is one shared object. */
    static method FromNumber(value: int, zero: LongBits) returns (b: LongBits)
      requires zero.lo == 0 && zero.hi == 0
      ensures b.Value() == value % TWO64
      ensures if value == 0 then b == zero else fresh(b)
    {
      if value == 0 {
        return zero;
      }
      hide Not32, ToUint32;
      var sign := value < 0;
      var v := if sign then -value else value;
      var lo: int := ToUint32(v);
      var hi: int := ToUint32((v - lo) / TWO32);
      Halves(v);
      if sign {
        Complement(v);
        hi := Not32(hi);
        lo := Not32(lo);
        lo := lo + 1;
        if lo > 4294967295 {
          lo := 0;
          hi := hi + 1;
          if hi > 4294967295 {
            hi := 0;
          }
        }
      }
      InRange(lo);
      InRange(hi);
      b := new LongBits(lo, hi);
    }

    static lemma InRange(x: u32)
      ensures ToUint32(x) == x
    {}

    static lemma Halves(v: nat)
      ensures var lo := ToUint32(v); v % TWO64 == lo + ToUint32((v - lo) / TWO32) * TWO32
    {}

    /** Flipping both halves and adding one is the two's complement. */
    static lemma Complement(v: nat)
      ensures var lo := ToUint32(v);
              var l, h := Not32(lo) + 1, Not32(ToUint32((v - lo) / TWO32));
              && l <= TWO32
              && if l < TWO32 then l + h * TWO32 == (0 - v) % TWO64
                 else if h + 1 < TWO32 then (h + 1) * TWO32 == (0 - v) % TWO64
                 else (0 - v) % TWO64 == 0
    {
      Halves(v);
      var lo := ToUint32(v);
      var n := lo + ToUint32((v - lo) / TWO32) * TWO32;
      Opposed(v);
      assert Not32(lo) == TWO32 - 1 - lo;
    }

    static lemma Opposed(v: nat)
      ensures (0 - v) % TWO64 == if v % TWO64 == 0 then 0 else TWO64 - v % TWO64
    {
      var n := v % TWO64;
      var q := 0 - v / TWO64 - if n == 0 then 0 else 1;
      assert 0 - v == q * TWO64 + if n == 0 then 0 else TWO64 - n;
    }

    method ToNumber(unsigned: bool) returns (n: int)
      ensures n == if unsigned then Value() else Signed64(Value())
    {
      Pow2Literals();
      Shifts(hi, 31, 0x8000_0000);
      hide Shr, Not32, ToUint32, Pow2;
      if !unsigned && Shr(hi, 31) != 0 {
        var l := ToUint32(Not32(lo) + 1);
        var h := Not32(hi);
        if l == 0 {
          h := ToUint32(h + 1);
        }
        Opposite(lo, hi);
        return -(l + h * TWO32);
      }
      return lo + hi * TWO32;
    }

    /** The negative of a pattern with the sign bit set. */
    static lemma Opposite(lo: u32, hi: u32)
      requires hi >= 0x8000_0000
      ensures var l, h := ToUint32(Not32(lo) + 1), Not32(hi);
              l + (if l == 0 then ToUint32(h + 1) else h) * TWO32 == TWO64 - (lo + hi * TWO32)
    {}

    /** Both halves of the shifted pattern, complemented when the sign bit was set. */
    method ZzEncode()
      modifies this
      ensures Value() == ZigZag(Signed64(old(Value())))
    {
      hide Or, Xor, And, Shl, Shr;
      var mask := if Shr(hi, 31) != 0 then TWO32 - 1 else 0;
      EncodedHalves(lo, hi);
      hi := Xor(Or(Shl(hi, 1), Shr(lo, 31)), mask);
      lo := Xor(Shl(lo, 1), mask);
    }

    static lemma TopBit(x: u32)
      ensures 2 * x % TWO32 == x % 0x8000_0000 * 2
    {}

    static lemma ShiftLeft1(lo: u32, hi: u32)
      ensures Or(Shl(hi, 1), Shr(lo, 31)) == 2 * hi % TWO32 + lo / 0x8000_0000
      ensures Shl(lo, 1) == 2 * lo % TWO32 && Shr(hi, 31) == hi / 0x8000_0000
    {
      hide Shl, Shr, Or, Pow2;
      Pow2Literals();
      Shifts(hi, 1, 2);
      Shifts(lo, 1, 2);
      Shifts(lo, 31, 0x8000_0000);
      Shifts(hi, 31, 0x8000_0000);
      TopBit(hi);
      assert lo / 0x8000_0000 < 2;
      OrAbove(hi % 0x8000_0000, lo / 0x8000_0000, 1, 2);
    }

    static lemma EncodedHalves(lo: u32, hi: u32)
      ensures var mask := if Shr(hi, 31) != 0 then TWO32 - 1 else 0;
              var h := Xor(Or(Shl(hi, 1), Shr(lo, 31)), mask);
              var l := Xor(Shl(lo, 1), mask);
              h < TWO32 && l < TWO32 && l + h * TWO32 == ZigZag(Signed64(lo + hi * TWO32))
    {
      hide Or, Xor, Shl, Shr, ZigZag, Signed64;
      ShiftLeft1(lo, hi);
      XorMask(2 * hi % TWO32 + lo / 0x8000_0000, hi / 0x8000_0000 != 0);
      XorMask(2 * lo % TWO32, hi / 0x8000_0000 != 0);
      EncodedValue(lo, hi);
    }

    static lemma EncodedValue(lo: u32, hi: u32)
      ensures var h, l := 2 * hi % TWO32 + lo / 0x8000_0000, 2 * lo % TWO32;
              ZigZag(Signed64(lo + hi * TWO32)) ==
              if hi / 0x8000_0000 != 0 then (TWO32 - 1 - l) + (TWO32 - 1 - h) * TWO32 else l + h * TWO32
    {}

    method ZzDecode()
      modifies this
      ensures Signed64(Value()) == UnZigZag(old(Value()))
    {
      hide Or, Xor, And, Shl, Shr;
      var mask := ToUint32(0 - And(lo, 1));
      DecodedHalves(lo, hi);
      lo, hi := Xor(Or(Shr(lo, 1), Shl(hi, 31)), mask), Xor(Shr(hi, 1), mask);
    }

    static lemma ShiftRight1(lo: u32, hi: u32)
      ensures Or(Shr(lo, 1), Shl(hi, 31)) == lo / 2 + hi % 2 * 0x8000_0000
      ensures Shr(hi, 1) == hi / 2
    {
      hide Shl, Shr, Or, Pow2;
      Pow2Literals();
      Shifts(hi, 1, 2);
      Shifts(lo, 1, 2);
      Shifts(hi, 31, 0x8000_0000);
      assert hi * 0x8000_0000 % TWO32 == hi % 2 * 0x8000_0000 && lo / 2 < 0x8000_0000;
      OrAbove(hi % 2, lo / 2, 31, 0x8000_0000);
    }

    static lemma DecodedHalves(lo: u32, hi: u32)
      ensures var mask := ToUint32(0 - And(lo, 1));
              var l := Xor(Or(Shr(lo, 1), Shl(hi, 31)), mask);
              var h := Xor(Shr(hi, 1), mask);
              h < TWO32 && l < TWO32 && Signed64(l + h * TWO32) == UnZigZag(lo + hi * TWO32)
    {
      LowBit(lo);
      hide Or, Xor, And, Shl, Shr;
      DecodedValue(lo, hi);
      ShiftRight1(lo, hi);
      var a, b, on := lo / 2 + hi % 2 * 0x8000_0000, hi / 2, lo % 2 == 1;
      XorMask(a, on);
      XorMask(b, on);
      hide UnZigZag, Signed64;
    }

    static lemma LowBit(x: u32)
      ensures ToUint32(0 - And(x, 1)) == if x % 2 == 1 then TWO32 - 1 else 0
    {
      assert Pow2(1) == 2;
      hide And;
      AndOnes(x, 1);
    }

    static lemma DecodedValue(lo: u32, hi: u32)
      ensures var l, h := lo / 2 + hi % 2 * 0x8000_0000, hi / 2;
              UnZigZag(lo + hi * TWO32) ==
              Signed64(if lo % 2 == 1 then (TWO32 - 1 - l) + (TWO32 - 1 - h) * TWO32 else l + h * TWO32)
    {}

    /** The predicted length is the length of the varint that gets written. */
    method Length() returns (n: nat)
      ensures n == |Varint(Value())|
    {
      LengthTable(lo, hi);
      var part0 := lo;
      var part1 := Or(Shr(lo, 28), Shl(hi, 4));
      var part2 := Shr(hi, 24);
      n := LengthFrom(part0, part1, part2);
    }

    static function LengthFrom(part0: nat, part1: nat, part2: nat): nat {
      if part2 == 0 then
        if part1 == 0 then
          if part0 < 16384 then if part0 < 128 then 1 else 2
          else if part0 < 2097152 then 3 else 4
        else
          if part1 < 16384 then if part1 < 128 then 5 else 6
          else if part1 < 2097152 then 7 else 8
      else if part2 < 128 then 9 else 10
    }

    static lemma LengthParts(lo: u32, hi: u32)
      ensures Or(Shr(lo, 28), Shl(hi, 4)) == lo / 0x1000_0000 + hi * 16 % TWO32
      ensures Shr(hi, 24) == hi / 0x100_0000
    {
      hide Shl, Shr, Or;
      assert Pow2(8) == 0x100 && Pow2(4) == 16;
      Pow2Add(8, 8);
      Pow2Add(16, 8);
      Pow2Add(24, 4);
      Shifts(lo, 28, 0x1000_0000);
      Shifts(hi, 4, 16);
      Shifts(hi, 24, 0x100_0000);
      OrDisjoint(Shr(lo, 28), Shl(hi, 4), 4);
    }

    static lemma LengthTable(lo: u32, hi: u32)
      ensures LengthFrom(lo, Or(Shr(lo, 28), Shl(hi, 4)), Shr(hi, 24)) == |Varint(lo + hi * TWO32)|
    {
      hide Or, Shl, Shr, Varint;
      LengthParts(lo, hi);
      var n := lo + hi * TWO32;
      Length4(n);
      Length4(n / 0x1000_0000);
      LengthStep(n / 0x1000_0000 / 0x1000_0000);
      LengthStep(n / 0x1000_0000 / 0x1000_0000 / 128);
    }

    /** Below 2^28 the length is read off; from there on four bytes precede the rest. */
    static lemma Length4(n: nat)
      ensures n >= 0x1000_0000 ==> |Varint(n)| == 4 + |Varint(n / 0x1000_0000)|
      ensures n < 0x1000_0000 ==>
                |Varint(n)| == if n < 16384 then if n < 128 then 1 else 2 else if n < 2097152 then 3 else 4
    {
      hide Varint;
      LengthStep(n);
      LengthStep(n / 128);
      LengthStep(n / 128 / 128);
      LengthStep(n / 128 / 128 / 128);
      assert n / 128 / 128 / 128 / 128 == n / 0x1000_0000;
    }

    static lemma LengthStep(n: nat)
      ensures |Varint(n)| == if n < 128 then 1 else 1 + |Varint(n / 128)|
    {}
  }

  /** Without a Long library a signed 64-bit field carries a number: any integer in the
      signed range comes back, directly and zig-zagged. */
  lemma NumberRoundTrip(v: int)
    requires -TWO64 / 2 <= v < TWO64 / 2
    ensures Signed64(v % TWO64) == v
    ensures ZigZag(v) < TWO64 && UnZigZag(ZigZag(v)) == v
  {}

  /** `LongBits.fromNumber(v).toNumber(unsigned)` */
  method NumberThereAndBack(v: int, unsigned: bool, zero: LongBits) returns (n: int)
    requires zero.lo == 0 && zero.hi == 0
    requires if unsigned then 0 <= v < TWO64 else -TWO64 / 2 <= v < TWO64 / 2
    ensures n == v
  {
    hide Signed64;
    if !unsigned { NumberRoundTrip(v); }
    var b := LongBits.FromNumber(v, zero);
    n := b.ToNumber(unsigned);
  }

  /** `LongBits.fromNumber(v).zzEncode().zzDecode().toNumber()`; zero encodes to itself. */
  method ZigZagThereAndBack(v: int, zero: LongBits) returns (n: int)
    requires zero.lo == 0 && zero.hi == 0 && -TWO64 / 2 <= v < TWO64 / 2
    ensures n == v
  {
    hide Signed64, ZigZag, UnZigZag;
    NumberRoundTrip(v);
    var b := LongBits.FromNumber(v, zero);
    if v != 0 {
      b.ZzEncode();
      b.ZzDecode();
    }
    n := b.ToNumber(false);
  }
}
