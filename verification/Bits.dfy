/** The JavaScript 32-bit operators the sources use, on the integers they stand for.
    `|`, `&` and `^` are defined bit by bit; the lemmas give their arithmetic meaning
    on the masks and shifts that occur in the codecs. */
module Bits {
  type byte = x: int | 0 <= x < 256
  type u16 = x: int | 0 <= x < 0x1_0000
  type u32 = x: int | 0 <= x < 0x1_0000_0000

  const TWO32 := 0x1_0000_0000
  const TWO64 := 0x1_0000_0000_0000_0000

  function Pow2(k: nat): (p: nat)
    ensures p >= 1
  {
    if k == 0 then 1 else 2 * Pow2(k - 1)
  }

  lemma {:induction false} Pow2Add(a: nat, b: nat)
    ensures Pow2(a + b) == Pow2(a) * Pow2(b)
  {
    if a > 0 {
      Pow2Add(a - 1, b);
      assert Pow2(a) * Pow2(b) == 2 * (Pow2(a - 1) * Pow2(b));
    }
  }

  lemma Pow2Literals()
    ensures Pow2(1) == 2 && Pow2(31) == 0x8000_0000 && Pow2(32) == TWO32 && Pow2(70) == TWO64 * 64
  {
    hide Pow2;
    SmallPowers();
    Pow2Add(8, 8);
    Pow2Add(16, 15);
    Pow2Add(16, 16);
    Pow2Add(32, 32);
    Pow2Add(64, 6);
  }

  lemma SmallPowers()
    ensures Pow2(1) == 2 && Pow2(6) == 64 && Pow2(8) == 0x100 && Pow2(15) == 0x8000
  {}

  function And(a: nat, b: nat): (r: nat)
    ensures r <= a && r <= b
  {
    if a == 0 || b == 0 then 0
    else (if a % 2 == 1 && b % 2 == 1 then 1 else 0) + 2 * And(a / 2, b / 2)
  }

  function Or(a: nat, b: nat): (r: nat)
    ensures a <= r <= a + b
    ensures b <= r
    decreases a + b
  {
    if a == 0 then b
    else if b == 0 then a
    else (if a % 2 == 1 || b % 2 == 1 then 1 else 0) + 2 * Or(a / 2, b / 2)
  }

  function Xor(a: nat, b: nat): (r: nat)
    ensures r <= a + b
    decreases a + b
  {
    if a == 0 then b
    else if b == 0 then a
    else (if a % 2 != b % 2 then 1 else 0) + 2 * Xor(a / 2, b / 2)
  }

  /** `v >>> 0` */
  function ToUint32(v: int): (r: u32) { v % TWO32 }

  /** `v | 0` on an unsigned 32-bit value */
  function ToInt32(v: u32): (r: int)
    ensures -0x8000_0000 <= r < 0x8000_0000 && ToUint32(r) == v
  {
    if v < 0x8000_0000 then v else v - TWO32
  }

  /** `x << k` followed by `>>> 0` */
  function Shl(x: nat, k: nat): (r: u32) { (x * Pow2(k)) % TWO32 }

  /** `x >>> k` */
  function Shr(x: nat, k: nat): (r: nat)
    ensures r <= x
  {
    DivLe(x, Pow2(k));
    x / Pow2(k)
  }

  lemma Shifts(x: nat, k: nat, p: nat)
    requires p == Pow2(k)
    ensures Shl(x, k) == x * p % TWO32 && Shr(x, k) == x / p
  {}

  lemma FitsTwo32(x: nat)
    requires x < TWO32
    ensures x % TWO32 == x
  {}

  /** `~x >>> 0` */
  function Not32(x: u32): (r: u32) { TWO32 - 1 - x }

  lemma MulGe(q: nat, d: nat)
    requires d >= 1
    ensures q * d >= q
  {
    if q > 0 { MulGe(q - 1, d); assert q * d == (q - 1) * d + d; }
  }

  lemma DivLe(x: nat, d: nat)
    requires d >= 1
    ensures 0 <= x / d <= x
  {
    assert x / d * d + x % d == x;
    MulGe(x / d, d);
  }

  /** Masking with k ones keeps the k low bits. */
  lemma {:induction false} AndOnes(x: nat, k: nat)
    ensures And(x, Pow2(k) - 1) == x % Pow2(k)
  {
    if k > 0 {
      AndOnes(x / 2, k - 1);
      ModHalf(x, Pow2(k - 1));
      if x != 0 {
        assert (Pow2(k) - 1) / 2 == Pow2(k - 1) - 1;
      }
    }
  }

  lemma ModHalf(x: nat, d: nat)
    requires d >= 1
    ensures x % (2 * d) == x % 2 + 2 * (x / 2 % d)
  {
    var q := x / 2 / d;
    assert x / 2 == q * d + x / 2 % d;
    assert x == 2 * (x / 2) + x % 2;
    var r := x % 2 + 2 * (x / 2 % d);
    assert x == q * (2 * d) + r by { assert 2 * (q * d) == q * (2 * d); }
    ModUnique(x, 2 * d, q, r);
  }

  lemma MulSign(k: int, d: nat)
    ensures k > 0 ==> k * d >= d
    ensures k < 0 ==> k * d <= 0 - d
    decreases if k < 0 then -k else k
  {
    if k > 1 { MulSign(k - 1, d); assert k * d == (k - 1) * d + d; }
    if k < -1 { MulSign(k + 1, d); assert k * d == (k + 1) * d - d; }
  }

  lemma ModUnique(x: nat, d: nat, q: int, r: int)
    requires d >= 1 && x == q * d + r && 0 <= r < d
    ensures x % d == r && x / d == q
  {
    var q', r' := x / d, x % d;
    assert x == q' * d + r';
    assert (q - q') * d == r' - r by { assert (q - q') * d == q * d - q' * d; }
    MulSign(q - q', d);
  }

  /** Joining k low bits with a multiple of 2^k is addition. */
  lemma {:induction false} OrDisjoint(a: nat, b: nat, k: nat)
    requires a < Pow2(k) && b % Pow2(k) == 0
    ensures Or(a, b) == a + b && Or(b, a) == a + b
  {
    if k > 0 && a != 0 && b != 0 {
      var d := Pow2(k - 1);
      ModHalf(b, d);
      OrDisjoint(a / 2, b / 2, k - 1);
    }
  }

  /** Low bits joined with a multiple of a power of two. */
  lemma OrAbove(high: nat, low: nat, k: nat, p: nat)
    requires p == Pow2(k) && low < p
    ensures Or(high * p, low) == Or(low, high * p) == high * p + low
  {
    hide Or, Pow2;
    ModUnique(high * p, p, high, 0);
    OrDisjoint(low, high * p, k);
  }

  lemma AndStep(a: nat, b: nat)
    requires a > 0 && b > 0
    ensures And(a, b) == (if a % 2 == 1 && b % 2 == 1 then 1 else 0) + 2 * And(a / 2, b / 2)
  {}

  lemma OrStep(a: nat, b: nat)
    requires a > 0 && b > 0
    ensures Or(a, b) == (if a % 2 == 1 || b % 2 == 1 then 1 else 0) + 2 * Or(a / 2, b / 2)
  {}

  lemma WithNone(b: nat)
    ensures And(0, b) == And(b, 0) == 0 && Or(0, b) == Or(b, 0) == b
  {}

  lemma AndEven(x: nat, m: nat)
    ensures And(x, 2 * m) == 2 * And(x / 2, m)
  {
    hide And;
    WithNone(2 * m);
    WithNone(x);
    WithNone(m);
    WithNone(x / 2);
    if x > 0 && m > 0 {
      AndStep(x, 2 * m);
      assert 2 * m / 2 == m && 2 * m % 2 == 0;
    }
  }

  /** Masking an n-bit number with the ones from bit k up clears its k low bits. */
  lemma {:induction false} AndHigh(x: nat, n: nat, k: nat)
    requires k <= n && x < Pow2(n)
    ensures Pow2(k) <= Pow2(n) && And(x, Pow2(n) - Pow2(k)) == x - x % Pow2(k)
    decreases k
  {
    if k == 0 {
      AndOnes(x, n);
      ModUnique(x, Pow2(n), 0, x);
    } else {
      var p, q := Pow2(k - 1), Pow2(n - 1);
      assert Pow2(k) == 2 * p && Pow2(n) == 2 * q;
      hide And, Pow2;
      AndHigh(x / 2, n - 1, k - 1);
      AndEven(x, q - p);
      ModHalf(x, p);
      assert x == 2 * (x / 2) + x % 2;
    }
  }

  /** Flipping all n bits is the ones' complement. */
  lemma {:induction false} XorOnes(x: nat, n: nat)
    requires x < Pow2(n)
    ensures Xor(x, Pow2(n) - 1) == Pow2(n) - 1 - x
  {
    if n > 0 && x != 0 {
      XorOnes(x / 2, n - 1);
      assert (Pow2(n) - 1) / 2 == Pow2(n - 1) - 1;
    }
  }
}
