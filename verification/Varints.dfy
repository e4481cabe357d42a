/** Base-128 varints: the one byte form that both varint writers produce, and what the
    two varint readers make of arbitrary bytes. */
module Varints {
  import opened Bits
  import opened Buffers

  datatype Error =
    | OutOfRange
    | InvalidVarint
    | InvalidWireType
    | MissingRequired(id: nat)

  /** What a read that returns leaves behind: the value and the new position. */
  datatype Read<+T> = Ok(val: T, pos: nat) | Err(error: Error)

  /** The varint of n: seven bits a byte, low group first, bit 7 set on all but the last. */
  function Varint(n: nat): (r: seq<byte>)
    ensures |r| >= 1
  {
    if n < 128 then [n] else [n % 128 + 128] + Varint(n / 128)
  }

  /** Reading past the end yields `undefined`, which masks to 0 and is not below 128;
      the byte 128 behaves the same in every expression of the readers. */
  function At(buf: seq<byte>, pos: nat): (b: byte) {
    if pos < |buf| then buf[pos] else 128
  }

  /** The number of continuation bytes at pos, counting no further than max. */
  function Run(buf: seq<byte>, pos: nat, max: nat): (k: nat)
    ensures k <= max
    ensures k < max ==> pos + k < |buf| && buf[pos + k] < 128
    decreases max
  {
    if max == 0 || At(buf, pos) < 128 then 0 else 1 + Run(buf, pos + 1, max - 1)
  }

  /** The number that n 7-bit groups starting at pos denote. */
  function Groups(buf: seq<byte>, pos: nat, n: nat): (v: nat)
    decreases n
  {
    if n == 0 then 0 else At(buf, pos) % 128 + 128 * Groups(buf, pos + 1, n - 1)
  }

  /** A 32-bit read keeps the low 32 bits of at most five groups, and takes a fifth
      continuation byte to mean that exactly ten bytes belong to the varint. */
  function ReadU32(buf: seq<byte>, pos: nat): (r: Read<u32>)
    ensures r.Ok? ==> pos < r.pos <= |buf|
  {
    var k := Run(buf, pos, 5);
    if k < 5 then Ok(Groups(buf, pos, k + 1) % TWO32, pos + k + 1)
    else if pos + 10 > |buf| then Err(OutOfRange)
    else Ok(Groups(buf, pos, 5) % TWO32, pos + 10)
  }

  /** The last three bytes are continuation bytes. */
  predicate EndsOpen(buf: seq<byte>) {
    |buf| >= 3 && buf[|buf| - 3] >= 128 && buf[|buf| - 2] >= 128 && buf[|buf| - 1] >= 128
  }

  /** A 64-bit read. With at most four bytes left it stops after the fourth byte whatever
      that byte is, and does not check that the fourth byte exists: behind three continuation
      bytes at the very end it steps over the end. */
  function ReadU64(buf: seq<byte>, pos: nat): (r: Read<nat>)
    ensures r.Ok? ==> pos < r.pos <= |buf| + 1
    ensures r.Ok? ==> (r.pos == |buf| + 1 <==> pos + 3 == |buf| && EndsOpen(buf))
  {
    if |buf| - pos > 4 then
      var k := Run(buf, pos, 10);
      if k < 10 then Ok(Groups(buf, pos, k + 1) % TWO64, pos + k + 1)
      else if pos + 10 > |buf| then Err(OutOfRange)
      else Err(InvalidVarint)
    else
      var k := Run(buf, pos, 3);
      if k < 3 then Ok(Groups(buf, pos, k + 1), pos + k + 1)
      else if pos + 3 > |buf| then Err(OutOfRange)
      else Ok(Groups(buf, pos, 4), pos + 4)
  }

  lemma VarintTail(n: nat, buf: seq<byte>, pos: nat)
    requires n >= 128 && Holds(buf, pos, Varint(n))
    ensures At(buf, pos) == n % 128 + 128 && Holds(buf, pos + 1, Varint(n / 128))
    ensures |Varint(n)| == 1 + |Varint(n / 128)|
  {
    HoldsSplit(buf, pos, [n % 128 + 128], Varint(n / 128));
    HoldsAt(buf, pos, Varint(n), 0);
  }

  lemma VarintHead(n: nat, buf: seq<byte>, pos: nat)
    requires n < 128 && Holds(buf, pos, Varint(n))
    ensures At(buf, pos) == n && |Varint(n)| == 1
  {
    HoldsAt(buf, pos, Varint(n), 0);
  }

  /** A varint in a buffer scans as exactly its bytes. */
  lemma {:induction false} ScanRun(n: nat, buf: seq<byte>, pos: nat, max: nat)
    requires Holds(buf, pos, Varint(n))
    ensures Run(buf, pos, max) == if max < |Varint(n)| then max else |Varint(n)| - 1
    decreases n
  {
    if n < 128 {
      VarintHead(n, buf, pos);
    } else {
      VarintTail(n, buf, pos);
      if max > 0 { ScanRun(n / 128, buf, pos + 1, max - 1); }
    }
  }

  /** The groups of a varint denote its number. */
  lemma {:induction false} ScanGroups(n: nat, buf: seq<byte>, pos: nat)
    requires Holds(buf, pos, Varint(n))
    ensures Groups(buf, pos, |Varint(n)|) == n
  {
    if n < 128 {
      VarintHead(n, buf, pos);
      assert Groups(buf, pos + 1, 0) == 0;
    } else {
      VarintTail(n, buf, pos);
      ScanGroups(n / 128, buf, pos + 1);
    }
  }

  lemma Pow2Step7(k: nat)
    ensures Pow2(7 * (k + 1)) == 128 * Pow2(7 * k)
  {
    var j := 7 * k;
    assert Pow2(j + 7) == 2 * Pow2(j + 6) == 4 * Pow2(j + 5) == 8 * Pow2(j + 4)
        == 16 * Pow2(j + 3) == 32 * Pow2(j + 2) == 64 * Pow2(j + 1);
  }

  /** The length of a varint: k bytes carry exactly the numbers below 128^k. */
  lemma {:induction false} VarintLength(n: nat, k: nat)
    ensures |Varint(n)| <= k + 1 <==> n < Pow2(7 * (k + 1))
  {
    Pow2Step7(k);
    if k == 0 {
    } else if n < 128 {
    } else {
      VarintLength(n / 128, k - 1);
    }
  }

  lemma GroupStep(n: nat, buf: seq<byte>, pos: nat, k: nat)
    requires n >= 128 && Holds(buf, pos, Varint(n))
    ensures Groups(buf, pos, k + 1) == n % 128 + 128 * Groups(buf, pos + 1, k)
    ensures Holds(buf, pos + 1, Varint(n / 128)) && |Varint(n)| == 1 + |Varint(n / 128)|
  {
    VarintTail(n, buf, pos);
  }

  lemma LowBits(n: nat, g: nat)
    requires g == n % 128 + 128 * (n / 128 % 128 + 128 * (n / 128 / 128 % 128
                  + 128 * (n / 128 / 128 / 128 % 128 + 128 * (n / 128 / 128 / 128 / 128 % 128))))
    ensures g % TWO32 == n % TWO32
  {
    var q := n / 128 / 128 / 128 / 128 / 128;
    assert n == g + q * 8 * TWO32;
  }

  lemma FiveGroups(n: nat, buf: seq<byte>, pos: nat)
    requires Holds(buf, pos, Varint(n)) && |Varint(n)| > 5
    ensures Groups(buf, pos, 5) % TWO32 == n % TWO32
  {
    var n1 := n / 128;
    GroupStep(n, buf, pos, 4);
    var n2 := n1 / 128;
    GroupStep(n1, buf, pos + 1, 3);
    var n3 := n2 / 128;
    GroupStep(n2, buf, pos + 2, 2);
    var n4 := n3 / 128;
    GroupStep(n3, buf, pos + 3, 1);
    GroupStep(n4, buf, pos + 4, 0);
    assert Groups(buf, pos + 5, 0) == 0;
    LowBits(n, Groups(buf, pos, 5));
  }

  lemma TenBytes(n: nat)
    requires n < TWO64
    ensures |Varint(n)| <= 10
  {
    VarintLength(n, 9);
    Pow2Literals();
  }

  /** A 32-bit read of a varint of at most 64 bits recovers its low 32 bits. It stops at
      the end of the varint exactly when the varint has at most five bytes or all ten:
      for six to nine bytes it runs on into what follows. */
  lemma ReadU32OfVarint(n: nat, buf: seq<byte>, pos: nat)
    requires n < TWO64 && Holds(buf, pos, Varint(n))
    ensures var r := ReadU32(buf, pos); r.Ok? ==> r.val == n % TWO32
    ensures ReadU32(buf, pos) == Ok(n % TWO32, pos + |Varint(n)|)
            <==> |Varint(n)| <= 5 || |Varint(n)| == 10
  {
    ScanRun(n, buf, pos, 5);
    TenBytes(n);
    if |Varint(n)| <= 5 {
      ScanGroups(n, buf, pos);
    } else {
      FiveGroups(n, buf, pos);
    }
  }

  /** Both routes of the 64-bit read recover every 64-bit number from its varint and
      consume exactly its bytes, wherever in the buffer it stands. */
  lemma ReadU64OfVarint(n: nat, buf: seq<byte>, pos: nat)
    requires n < TWO64 && Holds(buf, pos, Varint(n))
    ensures ReadU64(buf, pos) == Ok(n, pos + |Varint(n)|)
  {
    hide Groups, Run, Varint;
    ScanGroups(n, buf, pos);
    ScanRun(n, buf, pos, 10);
    ScanRun(n, buf, pos, 3);
    TenBytes(n);
    assert n % TWO64 == n;
  }

  // Where the two reads go wrong.

  const SixBytes: seq<byte> := [128, 128, 128, 128, 128, 1]

  /** Behind a varint of six bytes the 32-bit read swallows four bytes more. */
  lemma SwallowsFour(next: seq<byte>)
    requires |next| == 4
    ensures Varint(0x8_0000_0000) == SixBytes
    ensures ReadU32(SixBytes + next, 0) == Ok(0, 10)
  {
    assert Varint(0x800_0000 * 2) == [128] + Varint(0x20_0000);
    assert Varint(0x20_0000) == [128] + Varint(0x4000) && Varint(0x4000) == [128] + Varint(128);
    assert Varint(128) == [128, 1];
  }

  /** Three continuation bytes at the end are taken for a value, and a byte behind the end
      with them. */
  lemma StepsOver()
    ensures ReadU64([128, 128, 128], 0) == Ok(0, 4)
  {
    var buf: seq<byte> := [128, 128, 128];
    assert Run(buf, 0, 3) == 1 + Run(buf, 1, 2);
    assert Groups(buf, 3, 1) == 0;
    assert Groups(buf, 2, 2) == 0 && Groups(buf, 1, 3) == 0;
  }
}
