/** UTF-8 of UTF-16 code unit strings, section 3 of RFC 3629 extended to unpaired
    surrogates, and the chunked reader. */
module Utf8Codec {
  import opened Bits
  import opened Buffers
  import opened Varints

  type units = seq<u16>

  predicate IsHigh(c: u16) { 0xD800 <= c < 0xDC00 }
  predicate IsLow(c: u16) { 0xDC00 <= c < 0xE000 }
  predicate StartsWithPair(s: units) { |s| >= 2 && IsHigh(s[0]) && IsLow(s[1]) }

  function CodePoint(high: u16, low: u16): (c: nat)
    requires IsHigh(high) && IsLow(low)
    ensures 0x1_0000 <= c < 0x11_0000
  {
    0x1_0000 + (high - 0xD800) * 0x400 + (low - 0xDC00)
  }

  /** The bytes of one code unit outside a pair. */
  function UnitBytes(c: u16): (r: seq<byte>)
    ensures 1 <= |r| <= 3
  {
    if c < 0x80 then [c]
    else if c < 0x800 then [192 + c / 64, 128 + c % 64]
    else [224 + c / 4096, 128 + c / 64 % 64, 128 + c % 64]
  }

  function PairBytes(c: nat): (r: seq<byte>)
    requires 0x1_0000 <= c < 0x11_0000
    ensures |r| == 4
  {
    [240 + c / 0x4_0000, 128 + c / 4096 % 64, 128 + c / 64 % 64, 128 + c % 64]
  }

  /** A string as its surrogate pairs and single units. */
  function Characters(s: units): (r: seq<units>) {
    if s == [] then []
    else if StartsWithPair(s) then [s[..2]] + Characters(s[2..])
    else [s[..1]] + Characters(s[1..])
  }

  ghost predicate OneOrTwo(gs: seq<units>) {
    forall g :: g in gs ==> 1 <= |g| <= 2
  }

  lemma {:induction false} CharactersOf(s: units)
    ensures Concat(Characters(s)) == s && OneOrTwo(Characters(s))
    decreases |s|
  {
    if s != [] {
      var n := FirstLength(s);
      FirstCharacter(s);
      CharactersOf(s[n..]);
      assert s == s[..n] + s[n..];
      assert ([s[..n]] + Characters(s[n..]))[1..] == Characters(s[n..]);
    }
  }

  function Concat(gs: seq<units>): (s: units) {
    if gs == [] then [] else gs[0] + Concat(gs[1..])
  }

  function Utf8(s: units): (r: seq<byte>) {
    if s == [] then []
    else if StartsWithPair(s) then PairBytes(CodePoint(s[0], s[1])) + Utf8(s[2..])
    else UnitBytes(s[0]) + Utf8(s[1..])
  }

  /** The units one step of the reader makes of the bytes at p. */
  function StepUnits(buf: seq<byte>, p: nat): (r: units)
    ensures 1 <= |r| <= 2
  {
    var t: int, b1: int, b2: int, b3: int := At(buf, p), At(buf, p + 1), At(buf, p + 2), At(buf, p + 3);
    if t < 128 then [t]
    else if 191 < t < 224 then [t % 32 * 64 + b1 % 64]
    else if 239 < t then
      var c := t % 8 * 0x4_0000 + b1 % 64 * 4096 + b2 % 64 * 64 + b3 % 64 - 0x1_0000;
      [(0xD800 + c / 1024) % 0x1_0000, 0xDC00 + c % 1024]
    else [t % 16 * 4096 + b1 % 64 * 64 + b2 % 64]
  }

  function StepLength(buf: seq<byte>, p: nat): (n: nat)
    ensures 1 <= n <= 4
  {
    var t := At(buf, p);
    if t < 128 then 1 else if 191 < t < 224 then 2 else if 239 < t then 4 else 3
  }

  /** What the steps from p until end yield, in order. */
  function Steps(buf: seq<byte>, p: nat, end: nat): (r: seq<units>)
    decreases end - p
  {
    if p >= end then [] else [StepUnits(buf, p)] + Steps(buf, p + StepLength(buf, p), end)
  }

  /** The reader joins its steps in blocks of 8192 units, or 8193 when a pair straddles.
      Its block array never shrinks: a block of 8192 written after one of 8193 drags the
      old last unit along. `stale` is that unit, once there is one. */
  function Blocks(gs: seq<units>, block: units, stale: units): (s: units) {
    if gs == [] then block
    else
      var b := block + gs[0];
      if |b| < 8192 then Blocks(gs[1..], b, stale)
      else if |b| == 8192 then b + stale + Blocks(gs[1..], [], stale)
      else b + Blocks(gs[1..], [], [b[|b| - 1]])
  }

  function ReadUtf8(buf: seq<byte>, start: nat, end: nat): (s: units) {
    Blocks(Steps(buf, start, end), [], [])
  }

  /** No block of exactly 8192 units follows one of 8193; n units stand in the open block. */
  predicate BlocksFit(gs: seq<units>, n: nat, wide: bool) {
    gs == [] ||
    var m := n + |gs[0]|;
    if m < 8192 then BlocksFit(gs[1..], m, wide)
    else if m == 8192 then !wide && BlocksFit(gs[1..], 0, false)
    else BlocksFit(gs[1..], 0, true)
  }

  /** A string that the reader gives back. */
  predicate ReadsBack(s: units) { BlocksFit(Characters(s), 0, false) }

  lemma {:induction false} UnitStep(c: u16, buf: seq<byte>, p: nat)
    requires Holds(buf, p, UnitBytes(c))
    ensures StepUnits(buf, p) == [c] && StepLength(buf, p) == |UnitBytes(c)|
  {
    hide Holds;
    var u := UnitBytes(c);
    HoldsAt(buf, p, u, 0);
    if |u| > 1 { HoldsAt(buf, p, u, 1); }
    if |u| > 2 { HoldsAt(buf, p, u, 2); }
    assert c == c / 4096 * 4096 + c / 64 % 64 * 64 + c % 64;
  }

  lemma PairStep(high: u16, low: u16, buf: seq<byte>, p: nat)
    requires IsHigh(high) && IsLow(low)
    requires Holds(buf, p, PairBytes(CodePoint(high, low)))
    ensures StepUnits(buf, p) == [high, low] && StepLength(buf, p) == 4
  {
    hide Holds;
    var c := CodePoint(high, low);
    var u := PairBytes(c);
    HoldsAt(buf, p, u, 0);
    HoldsAt(buf, p, u, 1);
    HoldsAt(buf, p, u, 2);
    HoldsAt(buf, p, u, 3);
    PairArithmetic(c);
    PairHalves(high, low);
  }

  lemma PairArithmetic(c: nat)
    requires 0x1_0000 <= c < 0x11_0000
    ensures (240 + c / 0x4_0000) % 8 * 0x4_0000 + (128 + c / 4096 % 64) % 64 * 4096
            + (128 + c / 64 % 64) % 64 * 64 + (128 + c % 64) % 64 == c
  {
    LeadBits(c / 0x4_0000);
    TrailBits(c / 4096 % 64);
    TrailBits(c / 64 % 64);
    TrailBits(c % 64);
    assert c / 4096 == c / 0x4_0000 * 64 + c / 4096 % 64;
    assert c / 64 == c / 4096 * 64 + c / 64 % 64;
  }

  lemma PairHalves(high: u16, low: u16)
    requires IsHigh(high) && IsLow(low)
    ensures var c := CodePoint(high, low) - 0x1_0000;
            (0xD800 + c / 1024) % 0x1_0000 == high && 0xDC00 + c % 1024 == low
  {}

  lemma LeadBits(x: nat)
    ensures x < 8 ==> (240 + x) % 8 == x
  {}

  lemma TrailBits(x: nat)
    ensures x < 64 ==> (128 + x) % 64 == x
  {}

  /** The bytes of the first character of s, and how many units it has. */
  function FirstBytes(s: units): (r: seq<byte>)
    requires s != []
    ensures |r| >= 1
  {
    if StartsWithPair(s) then PairBytes(CodePoint(s[0], s[1])) else UnitBytes(s[0])
  }

  function FirstLength(s: units): (n: nat)
    requires s != []
    ensures 1 <= n <= |s| && n <= 2
  {
    if StartsWithPair(s) then 2 else 1
  }

  lemma FirstCharacter(s: units)
    requires s != []
    ensures Utf8(s) == FirstBytes(s) + Utf8(s[FirstLength(s)..])
    ensures Characters(s) == [s[..FirstLength(s)]] + Characters(s[FirstLength(s)..])
  {
    hide UnitBytes, PairBytes, CodePoint, Concat;
  }

  lemma FirstStep(s: units, buf: seq<byte>, p: nat)
    requires s != [] && Holds(buf, p, FirstBytes(s))
    ensures StepUnits(buf, p) == s[..FirstLength(s)] && StepLength(buf, p) == |FirstBytes(s)|
  {
    hide UnitBytes, PairBytes, CodePoint, StepUnits, StepLength, Holds;
    if StartsWithPair(s) {
      PairStep(s[0], s[1], buf, p);
      assert s[..2] == [s[0], s[1]];
    } else {
      UnitStep(s[0], buf, p);
      assert s[..1] == [s[0]];
    }
  }

  lemma StepsCons(buf: seq<byte>, p: nat, end: nat)
    requires p < end
    ensures Steps(buf, p, end) == [StepUnits(buf, p)] + Steps(buf, p + StepLength(buf, p), end)
  {
    hide StepUnits, StepLength;
  }

  /** Written UTF-8 steps back into the characters of the string, anywhere in a buffer. */
  lemma {:induction false} StepsOfUtf8(s: units, buf: seq<byte>, p: nat)
    requires Holds(buf, p, Utf8(s))
    ensures Steps(buf, p, p + |Utf8(s)|) == Characters(s)
    decreases |s|
  {
    if s != [] {
      hide *;
      var u, rest := FirstBytes(s), s[FirstLength(s)..];
      FirstCharacter(s);
      HoldsSplit(buf, p, u, Utf8(rest));
      FirstStep(s, buf, p);
      StepsOfUtf8(rest, buf, p + |u|);
      var e := p + |Utf8(s)|;
      assert p + |u| + |Utf8(rest)| == e;
      StepsCons(buf, p, e);
      assert Steps(buf, p + StepLength(buf, p), e) == Characters(rest);
      var first := s[..FirstLength(s)];
      assert Steps(buf, p, e) == [first] + Characters(rest);
      assert Characters(s) == [first] + Characters(rest);
    }
  }

  /** Blocks joins without loss exactly when they fit; otherwise the result is too long. */
  lemma {:induction false} BlocksExact(gs: seq<units>, block: units, stale: units)
    requires OneOrTwo(gs)
    requires |block| < 8192 && |stale| <= 1
    ensures |Blocks(gs, block, stale)| >= |block + Concat(gs)|
    ensures Blocks(gs, block, stale) == block + Concat(gs) <==> BlocksFit(gs, |block|, stale != [])
    ensures !BlocksFit(gs, |block|, stale != []) ==> |Blocks(gs, block, stale)| > |block + Concat(gs)|
    decreases |gs|
  {
    if gs == [] {
      assert block + Concat(gs) == block;
    } else {
      var b, rest := block + gs[0], gs[1..];
      assert gs[0] in gs && forall g :: g in rest ==> g in gs;
      assert block + Concat(gs) == b + Concat(rest);
      if |b| < 8192 {
        BlocksExact(rest, b, stale);
      } else {
        assert [] + Concat(rest) == Concat(rest);
        if |b| == 8192 {
          BlocksExact(rest, [], stale);
          if stale == [] {
            SamePrefix(b, Blocks(rest, [], stale), Concat(rest));
          }
        } else {
          var stale' := [b[|b| - 1]];
          BlocksExact(rest, [], stale');
          SamePrefix(b, Blocks(rest, [], stale'), Concat(rest));
        }
      }
    }
  }

  lemma SamePrefix(b: units, x: units, y: units)
    ensures b + x == b + y <==> x == y
    ensures b + [] + x == b + x
  {
    assert (b + x)[|b|..] == x && (b + y)[|b|..] == y;
  }

  /** utf8.read gives back a written string exactly when its blocks fit. */
  lemma RoundTrip(s: units, buf: seq<byte>, p: nat)
    requires Holds(buf, p, Utf8(s))
    ensures ReadUtf8(buf, p, p + |Utf8(s)|) == s <==> ReadsBack(s)
  {
    hide Utf8, Steps, Characters, Blocks, BlocksFit, Holds;
    StepsOfUtf8(s, buf, p);
    CharactersOf(s);
    BlocksExact(Characters(s), [], []);
    assert [] + s == s;
  }

  /** The string that comes back when it is written and read. */
  function Reread(s: units): (r: units) {
    ReadUtf8(Utf8(s), 0, |Utf8(s)|)
  }

  lemma RereadIs(s: units)
    ensures Reread(s) == s <==> ReadsBack(s)
  {
    hide ReadUtf8, Utf8, ReadsBack;
    RoundTrip(s, Utf8(s), 0);
  }

  lemma {:induction false} ShortFits(gs: seq<units>, n: nat, wide: bool)
    requires OneOrTwo(gs)
    requires n < 8192 && n + |Concat(gs)| < if wide then 8192 else 16385
    ensures BlocksFit(gs, n, wide)
    decreases |gs|
  {
    if gs != [] {
      var m, rest := n + |gs[0]|, gs[1..];
      assert gs[0] in gs && forall g :: g in rest ==> g in gs;
      if m < 8192 { ShortFits(rest, m, wide); } else { ShortFits(rest, 0, m == 8193); }
    }
  }

  lemma {:induction false} SinglesFit(gs: seq<units>, n: nat)
    requires n < 8192 && forall g :: g in gs ==> |g| == 1
    ensures BlocksFit(gs, n, false)
    decreases |gs|
  {
    if gs != [] {
      assert gs[0] in gs && forall g :: g in gs[1..] ==> g in gs;
      SinglesFit(gs[1..], if n < 8191 then n + 1 else 0);
    }
  }

  predicate NoPairs(s: units) {
    forall i :: 0 <= i < |s| - 1 ==> !(IsHigh(s[i]) && IsLow(s[i + 1]))
  }

  lemma {:induction false} NoPairsSingles(s: units)
    requires NoPairs(s)
    ensures forall g :: g in Characters(s) ==> |g| == 1
    decreases |s|
  {
    if s != [] {
      assert !StartsWithPair(s);
      forall i | 0 <= i < |s[1..]| - 1 ensures !(IsHigh(s[1..][i]) && IsLow(s[1..][i + 1])) {
        assert s[1..][i] == s[i + 1] && s[1..][i + 1] == s[(i + 1) + 1];
      }
      NoPairsSingles(s[1..]);
    }
  }

  /** Strings without surrogate pairs and strings below 16385 units are given back. */
  lemma UsualStringsReadBack(s: units)
    requires NoPairs(s) || |s| < 16385
    ensures ReadsBack(s)
  {
    if NoPairs(s) {
      NoPairsSingles(s);
      SinglesFit(Characters(s), 0);
    } else {
      CharactersOf(s);
      ShortFits(Characters(s), 0, false);
    }
  }

  function Ones(n: nat): (s: units) {
    if n == 0 then [] else [49] + Ones(n - 1)
  }

  lemma {:induction false} OnesBlocks(k: nat, t: units, n: nat, wide: bool)
    requires n + k < 8192
    ensures BlocksFit(Characters(Ones(k) + t), n, wide) == BlocksFit(Characters(t), n + k, wide)
    decreases k
  {
    if k == 0 {
      assert Ones(0) + t == t;
    } else {
      var s := Ones(k) + t;
      assert s[0] == 49 && s[1..] == Ones(k - 1) + t;
      OnesBlocks(k - 1, t, n + 1, wide);
      OneUnit(s, n, wide);
    }
  }

  lemma OneUnit(s: units, n: nat, wide: bool)
    requires s != [] && !StartsWithPair(s) && n + 1 < 8192
    ensures BlocksFit(Characters(s), n, wide) == BlocksFit(Characters(s[1..]), n + 1, wide)
  {
    FirstCharacter(s);
    hide Characters;
    assert Characters(s)[0] == s[..1] && Characters(s)[1..] == Characters(s[1..]);
  }

  function Dragging(): (s: units) { Ones(8191) + ([0xD800, 0xDC00] + (Ones(8191) + [49])) }

  /** 8191 units, a pair, then 8192 units: the second block drags a unit along. */
  lemma LongStringsMayNot()
    ensures !ReadsBack(Dragging())
  {
    hide Ones;
    var t := Ones(8191) + [49];
    var p := [0xD800, 0xDC00] + t;
    OnesBlocks(8191, p, 0, false);
    assert StartsWithPair(p) && p[2..] == t;
    OnesBlocks(8191, [49], 0, true);
    assert [49][1..] == [] && [49][..1] == [49];
  }

  lemma {:induction false} OnesSize(n: nat)
    ensures |Ones(n)| == n
  {
    if n > 0 { OnesSize(n - 1); }
  }

  lemma DraggingSize()
    ensures |Dragging()| == 16385
  {
    hide Ones;
    OnesSize(8191);
  }

  /** A unit takes at most three bytes. */
  lemma {:induction false} Utf8Size(s: units)
    ensures |Utf8(s)| <= 3 * |s|
    decreases |s|
  {
    if s != [] { Utf8Size(s[if StartsWithPair(s) then 2 else 1..]); }
  }

  /** `c & 0xFC00`, which keeps the six high bits. */
  lemma SurrogateMask(c: u16)
    ensures And(c, 0xFC00) == c - c % 0x400
  {
    hide And;
    SmallPowers();
    assert Pow2(10) == 0x400;
    Pow2Add(8, 8);
    AndHigh(c, 16, 10);
  }

  /** charCodeAt is NaN past the end, which masks to 0. */
  function CodeAt(s: units, i: nat): (c: u16) {
    if i < |s| then s[i] else 0
  }

  predicate PairAt(s: units, i: nat)
    requires i < |s|
  {
    And(s[i], 0xFC00) == 0xD800 && And(CodeAt(s, i + 1), 0xFC00) == 0xDC00
  }

  lemma PairAtMeans(s: units, i: nat)
    requires i < |s|
    ensures PairAt(s, i) == StartsWithPair(s[i..])
  {
    hide And;
    SurrogateMask(s[i]);
    SurrogateMask(CodeAt(s, i + 1));
  }

  method Length(s: units) returns (len: nat)
    ensures len == |Utf8(s)|
  {
    hide PairBytes, PairAt, StartsWithPair, CodePoint, Utf8;
    Utf8End(s);
    len := 0;
    var i := 0;
    while i < |s|
      invariant i <= |s|
      invariant len + |Utf8(s[i..])| == |Utf8(s)|
    {
      var c := s[i];
      Utf8At(s, i);
      if c < 128 {
        len := len + 1;
      } else if c < 2048 {
        len := len + 2;
      } else if PairAt(s, i) {
        i := i + 1;
        len := len + 4;
      } else {
        len := len + 3;
      }
      i := i + 1;
    }
  }

  lemma Utf8End(s: units)
    ensures Utf8(s[|s|..]) == []
  {}

  lemma Utf8At(s: units, i: nat)
    requires i < |s|
    ensures if PairAt(s, i) then i + 2 <= |s| && s[i] >= 2048 && |Utf8(s[i..])| == 4 + |Utf8(s[i + 2..])|
            else |Utf8(s[i..])| == |UnitBytes(s[i])| + |Utf8(s[i + 1..])|
  {
    hide And, UnitBytes, PairBytes;
    PairAtMeans(s, i);
    assert s[i..][1..] == s[i + 1..];
    if PairAt(s, i) { assert s[i..][2..] == s[i + 2..]; }
  }

  lemma LeadByte(x: nat, lead: nat, k: nat)
    requires (lead == 192 && k == 6) || (lead == 224 && k == 5) || (lead == 240 && k == 4)
    requires x < Pow2(k)
    ensures Or(x, lead) == x + lead
  {
    assert Pow2(4) == 16 && Pow2(5) == 32 && Pow2(6) == 64;
    hide Or;
    OrDisjoint(x, lead, k);
  }

  lemma TrailByte(x: nat)
    ensures Or(And(x, 63), 128) == 128 + x % 64
  {
    hide Or, And;
    SmallPowers();
    AndOnes(x, 6);
    OrDisjoint(x % 64, 128, 6);
  }

  lemma CodeShifts(x: nat)
    ensures Shr(x, 6) == x / 64 && Shr(x, 12) == x / 4096 && Shr(x, 18) == x / 0x4_0000
    ensures Pow2(4) == 16 && Pow2(5) == 32 && Pow2(6) == 64
  {
    assert Pow2(4) == 16 && Pow2(5) == 32;
    SmallPowers();
    hide Pow2, Shr;
    Pow2Add(6, 6);
    Pow2Add(12, 6);
    Shifts(x, 6, 64);
    Shifts(x, 12, 4096);
    Shifts(x, 18, 0x4_0000);
  }

  lemma TwoBytes(c: u16)
    requires 0x80 <= c < 0x800
    ensures [Or(Shr(c, 6), 192), Or(And(c, 63), 128)] == UnitBytes(c)
  {
    hide Or, And, Shr, Pow2;
    CodeShifts(c);
    LeadByte(c / 64, 192, 6);
    TrailByte(c);
  }

  lemma ThreeBytes(c: u16)
    requires 0x800 <= c
    ensures [Or(Shr(c, 12), 224), Or(And(Shr(c, 6), 63), 128), Or(And(c, 63), 128)] == UnitBytes(c)
  {
    hide Or, And, Shr, Pow2;
    CodeShifts(c);
    LeadByte(c / 4096, 224, 5);
    TrailByte(c / 64);
    TrailByte(c);
  }

  lemma FourBytes(cp: nat)
    requires 0x1_0000 <= cp < 0x11_0000
    ensures [Or(Shr(cp, 18), 240), Or(And(Shr(cp, 12), 63), 128),
             Or(And(Shr(cp, 6), 63), 128), Or(And(cp, 63), 128)] == PairBytes(cp)
  {
    hide Or, And, Shr, Pow2;
    CodeShifts(cp);
    LeadByte(cp / 0x4_0000, 240, 4);
    TrailByte(cp / 4096);
    TrailByte(cp / 64);
    TrailByte(cp);
  }

  /** `0x10000 + ((c1 & 0x03FF) << 10) + (c2 & 0x03FF)` */
  lemma JoinedPair(c1: u16, c2: u16)
    requires IsHigh(c1) && IsLow(c2)
    ensures 0x1_0000 + Shl(And(c1, 0x3FF), 10) + And(c2, 0x3FF) == CodePoint(c1, c2)
  {
    LowTen(c1);
    LowTen(c2);
    hide And, Shl;
    assert c1 % 0x400 == c1 - 0xD800 && c2 % 0x400 == c2 - 0xDC00;
    FitsTwo32((c1 - 0xD800) * 0x400);
  }

  lemma LowTen(c: u16)
    ensures And(c, 0x3FF) == c % 0x400 && Shl(c % 0x400, 10) == c % 0x400 * 0x400 % TWO32
  {
    assert Pow2(10) == 0x400;
    hide And, Pow2, Shl;
    AndOnes(c, 10);
    Shifts(c % 0x400, 10, 0x400);
  }

  /** One turn of the writing loop: the unit at i, or the pair it starts. */
  method WriteCharacter(s: units, i: nat, buffer: array<byte>, offset: nat) returns (n: nat, units: nat)
    requires i < |s| && offset + |BytesAt(s, i)| <= buffer.Length
    modifies buffer
    ensures n == |BytesAt(s, i)| && units == if PairAt(s, i) then 2 else 1
    ensures buffer[..] == old(buffer[..offset]) + BytesAt(s, i) + old(buffer[offset + n..])
  {
    hide UnitBytes, PairBytes, PairAt, StartsWithPair, CodePoint, Utf8, And, Or, Shl, Shr, BytesAt;
    var c1 := s[i];
    WriteAt(s, i);
    if c1 < 128 {
      Put(buffer, offset, [c1]);
      return 1, 1;
    } else if c1 < 2048 {
      TwoBytes(c1);
      Put(buffer, offset, [Or(Shr(c1, 6), 192), Or(And(c1, 63), 128)]);
      return 2, 1;
    } else if PairAt(s, i) {
      var c2 := s[i + 1];
      JoinedPair(c1, c2);
      var cp := 0x1_0000 + Shl(And(c1, 0x03FF), 10) + And(c2, 0x03FF);
      FourBytes(cp);
      Put(buffer, offset, [Or(Shr(cp, 18), 240), Or(And(Shr(cp, 12), 63), 128),
                           Or(And(Shr(cp, 6), 63), 128), Or(And(cp, 63), 128)]);
      return 4, 2;
    } else {
      ThreeBytes(c1);
      Put(buffer, offset, [Or(Shr(c1, 12), 224), Or(And(Shr(c1, 6), 63), 128), Or(And(c1, 63), 128)]);
      return 3, 1;
    }
  }

  /** Writes s at offset; the caller has made room for all its bytes. */
  method Write(s: units, buffer: array<byte>, offset: nat) returns (n: nat)
    requires offset + |Utf8(s)| <= buffer.Length
    modifies buffer
    ensures n == |Utf8(s)|
    ensures buffer[..] == old(buffer[..offset]) + Utf8(s) + old(buffer[offset + |Utf8(s)|..])
  {
    hide *;
    ghost var all, x, y := Utf8(s), buffer[..offset], buffer[offset..];
    WrittenNone(buffer[..], all, offset);
    assert s[0..] == s;
    var o, i := offset, 0;
    while i < |s|
      invariant i <= |s| && offset <= o && o - offset <= |all|
      invariant Utf8(s[i..]) == all[o - offset..] && Written(buffer[..], x, all, y, o - offset)
    {
      NextWritten(s, i, buffer[..], x, all, y, o - offset);
      var n, k := WriteCharacter(s, i, buffer, o);
      o := o + n;
      i := i + k;
    }
    n := o - offset;
    Utf8End(s);
    WrittenAll(buffer[..], x, all, y);
  }

  /** The next character goes behind those written. */
  lemma NextWritten(s: units, i: nat, buf: seq<byte>, x: seq<byte>, all: seq<byte>, y: seq<byte>, k: nat)
    requires i < |s| && Written(buf, x, all, y, k) && Utf8(s[i..]) == all[k..]
    ensures var u, j := BytesAt(s, i), if PairAt(s, i) then i + 2 else i + 1;
            && j <= |s| && |x| + k + |u| <= |buf| && k + |u| <= |all| && Utf8(s[j..]) == all[k + |u|..]
            && Written(buf[..|x| + k] + u + buf[|x| + k + |u|..], x, all, y, k + |u|)
  {
    hide *;
    WriteAt(s, i);
    WrittenMore(buf, x, all, y, k, BytesAt(s, i), Utf8(s[if PairAt(s, i) then i + 2 else i + 1..]));
  }

  ghost function BytesAt(s: units, i: nat): (u: seq<byte>)
    requires i < |s|
  {
    PairAtMeans(s, i);
    if PairAt(s, i) then PairBytes(CodePoint(s[i..][0], s[i..][1])) else UnitBytes(s[i])
  }

  lemma WriteAt(s: units, i: nat)
    requires i < |s|
    ensures PairAt(s, i) ==> i + 2 <= |s| && IsHigh(s[i]) && IsLow(s[i + 1])
    ensures PairAt(s, i) ==> BytesAt(s, i) == PairBytes(CodePoint(s[i], s[i + 1]))
    ensures Utf8(s[i..]) == BytesAt(s, i) + Utf8(s[if PairAt(s, i) then i + 2 else i + 1..])
    ensures s[i] < 128 ==> BytesAt(s, i) == [s[i]]
    ensures s[i] < 2048 ==> !PairAt(s, i)
    ensures !PairAt(s, i) ==> BytesAt(s, i) == UnitBytes(s[i])
  {
    hide And, PairBytes;
    PairAtMeans(s, i);
    assert s[i..][1..] == s[i + 1..];
    if PairAt(s, i) { assert s[i..][2..] == s[i + 2..]; }
  }

  /** `(b & mask) << k` for the masks and shifts of the reader. */
  lemma Field(b: byte, w: nat, sh: nat)
    requires 3 <= w <= 6 && (sh == 0 || sh == 6 || sh == 12 || sh == 18)
    ensures Shl(And(b, Pow2(w) - 1), sh) == b % Pow2(w) * Pow2(sh)
    ensures Pow2(3) == 8 && Pow2(4) == 16 && Pow2(5) == 32 && Pow2(6) == 64
    ensures Pow2(12) == 4096 && Pow2(18) == 0x4_0000
  {
    assert Pow2(3) == 8 && Pow2(0) == 1;
    CodeShifts(0);
    Pow2Add(6, 6);
    Pow2Add(12, 6);
    hide Pow2, And, Shl;
    AndOnes(b, w);
    FitsTwo32(b % Pow2(w) * Pow2(sh));
    Shifts(b % Pow2(w), sh, Pow2(sh));
  }

  lemma Mask6(b: byte)
    ensures And(b, 63) == b % 64
  {
    SmallPowers();
    hide And;
    AndOnes(b, 6);
  }

  /** `(t & 31) << 6 | b1 & 63` and its longer kin. */
  lemma ReadTwo(t: byte, b1: byte)
    ensures Or(Shl(And(t, 31), 6), And(b1, 63)) == t % 32 * 64 + b1 % 64
  {
    hide Or, And, Shl, Pow2;
    Field(t, 5, 6);
    Mask6(b1);
    OrDisjoint(b1 % 64, t % 32 * 64, 6);
  }

  lemma ReadThree(t: byte, b1: byte, b2: byte)
    ensures Or(Or(Shl(And(t, 15), 12), Shl(And(b1, 63), 6)), And(b2, 63))
            == t % 16 * 4096 + b1 % 64 * 64 + b2 % 64
  {
    hide Or, And, Shl, Pow2;
    Field(t, 4, 12);
    Field(b1, 6, 6);
    Mask6(b2);
    OrDisjoint(b1 % 64 * 64, t % 16 * 4096, 12);
    OrDisjoint(b2 % 64, t % 16 * 4096 + b1 % 64 * 64, 6);
  }

  lemma ReadFour(t: byte, b1: byte, b2: byte, b3: byte)
    ensures Or(Or(Or(Shl(And(t, 7), 18), Shl(And(b1, 63), 12)), Shl(And(b2, 63), 6)), And(b3, 63))
            == t % 8 * 0x4_0000 + b1 % 64 * 4096 + b2 % 64 * 64 + b3 % 64
  {
    hide Or, And, Shl, Pow2;
    Field(t, 3, 18);
    Field(b1, 6, 12);
    Field(b2, 6, 6);
    Mask6(b3);
    OrFour(t % 8, b1 % 64, b2 % 64, b3 % 64);
  }

  lemma OrFour(a: nat, b: nat, c: nat, d: nat)
    requires a < 8 && b < 64 && c < 64 && d < 64
    ensures Or(Or(Or(a * 0x4_0000, b * 4096), c * 64), d) == a * 0x4_0000 + b * 4096 + c * 64 + d
  {
    assert Pow2(6) == 64;
    Pow2Add(6, 6);
    Pow2Add(12, 6);
    hide Or, Pow2;
    OrAbove(a, b * 4096, 18, 0x4_0000);
    OrAbove(a * 64 + b, c * 64, 12, 4096);
    OrAbove(a * 4096 + b * 64 + c, d, 6, 64);
  }

  /** `chunk[i] = c` on an array that grows by one at its end. */
  function Set(chunk: units, i: nat, c: u16): (r: units)
    requires i <= |chunk|
    ensures |r| == if i < |chunk| then |chunk| else i + 1
    ensures r[..i + 1] == chunk[..i] + [c]
    ensures i < |chunk| ==> r[i + 1..] == chunk[i + 1..]
  {
    if i < |chunk| then chunk[i := c] else chunk + [c]
  }

  /** One turn of the reading loop: at most two units go into the chunk. */
  method ReadCharacter(buffer: seq<byte>, start: nat, chunk: units, i: nat)
    returns (chunk': units, i': nat, start': nat)
    requires i <= |chunk|
    ensures start' == start + StepLength(buffer, start)
    ensures i' == i + |StepUnits(buffer, start)| <= |chunk'|
    ensures chunk'[..i'] == chunk[..i] + StepUnits(buffer, start)
    ensures if i' <= |chunk| then |chunk'| == |chunk| && chunk'[i'..] == chunk[i'..] else |chunk'| == i'
  {
    StepIs(buffer, start);
    hide Or, And, Shl, StepUnits, StepLength;
    var t := At(buffer, start);
    if t < 128 {
      chunk' := Set(chunk, i, t);
      return chunk', i + 1, start + 1;
    } else if t > 191 && t < 224 {
      chunk' := Set(chunk, i, Or(Shl(And(t, 31), 6), And(At(buffer, start + 1), 63)));
      return chunk', i + 1, start + 2;
    } else if t > 239 && t < 365 {
      var c := Or(Or(Or(Shl(And(t, 7), 18), Shl(And(At(buffer, start + 1), 63), 12)),
                     Shl(And(At(buffer, start + 2), 63), 6)), And(At(buffer, start + 3), 63)) - 0x1_0000;
      chunk' := Set(chunk, i, (0xD800 + c / 1024) % 0x1_0000);
      SetTwice(chunk, i, (0xD800 + c / 1024) % 0x1_0000, 0xDC00 + c % 1024);
      chunk' := Set(chunk', i + 1, 0xDC00 + c % 1024);
      return chunk', i + 2, start + 4;
    } else {
      chunk' := Set(chunk, i, Or(Or(Shl(And(t, 15), 12), Shl(And(At(buffer, start + 1), 63), 6)),
                                 And(At(buffer, start + 2), 63)));
      return chunk', i + 1, start + 3;
    }
  }

  /** What one step reads, in the terms of the source. */
  lemma StepIs(buf: seq<byte>, p: nat)
    ensures var t := At(buf, p);
            var c := Or(Or(Or(Shl(And(t, 7), 18), Shl(And(At(buf, p + 1), 63), 12)),
                           Shl(And(At(buf, p + 2), 63), 6)), And(At(buf, p + 3), 63)) - 0x1_0000;
            if t < 128 then StepLength(buf, p) == 1 && StepUnits(buf, p) == [t]
            else if t > 191 && t < 224 then
              var u := Or(Shl(And(t, 31), 6), And(At(buf, p + 1), 63));
              StepLength(buf, p) == 2 && u < 0x1_0000 && StepUnits(buf, p) == [u]
            else if t > 239 then
              StepLength(buf, p) == 4 && StepUnits(buf, p) == [(0xD800 + c / 1024) % 0x1_0000, 0xDC00 + c % 1024]
            else
              var u := Or(Or(Shl(And(t, 15), 12), Shl(And(At(buf, p + 1), 63), 6)), And(At(buf, p + 2), 63));
              StepLength(buf, p) == 3 && u < 0x1_0000 && StepUnits(buf, p) == [u]
  {
    hide Or, And, Shl;
    var t := At(buf, p);
    ReadTwo(t, At(buf, p + 1));
    ReadThree(t, At(buf, p + 1), At(buf, p + 2));
    ReadFour(t, At(buf, p + 1), At(buf, p + 2), At(buf, p + 3));
  }

  lemma SetTwice(chunk: units, i: nat, c: u16, d: u16)
    requires i <= |chunk|
    ensures var r := Set(Set(chunk, i, c), i + 1, d);
            && r[..i + 2] == chunk[..i] + [c, d]
            && if i + 2 <= |chunk| then |r| == |chunk| && r[i + 2..] == chunk[i + 2..] else |r| == i + 2
  {}

  /** The unit left over from a block of 8193, while the chunk array has that length. */
  function Stale(chunk: units): (s: units) {
    if |chunk| > 8192 then [chunk[8192]] else []
  }

  method Read(buffer: seq<byte>, start: nat, end: nat) returns (s: units)
    ensures s == ReadUtf8(buffer, start, end)
  {
    hide StepUnits, StepLength, Steps, Blocks, Concat;
    if end <= start {
      Finished(buffer, start, end, [], []);
      return [];
    }
    var parts: units, flushed := [], false;
    var chunk: units, i := [], 0;
    var p := start;
    while p < end
      invariant i <= |chunk| <= 8193 && i < 8192 && (!flushed ==> parts == [])
      invariant parts + Blocks(Steps(buffer, p, end), chunk[..i], Stale(chunk)) == ReadUtf8(buffer, start, end)
      decreases end - p
    {
      StepsCons(buffer, p, end);
      ghost var u, rest := StepUnits(buffer, p), Steps(buffer, p + StepLength(buffer, p), end);
      ghost var block, stale := chunk[..i], Stale(chunk);
      chunk, i, p := ReadCharacter(buffer, p, chunk, i);
      BlocksStep(u, rest, chunk[..i], block, stale, chunk);
      if i > 8191 {
        ghost var more := Blocks(rest, chunk[..0], Stale(chunk));
        assert parts + (chunk + more) == parts + chunk + more;
        parts, flushed := parts + chunk, true;
        i := 0;
      }
    }
    Finished(buffer, p, end, chunk[..i], Stale(chunk));
    if flushed {
      return if i > 0 then parts + chunk[..i] else parts;
    }
    return chunk[..i];
  }

  lemma Finished(buf: seq<byte>, p: nat, end: nat, block: units, stale: units)
    requires p >= end
    ensures Blocks(Steps(buf, p, end), block, stale) == block
  {}

  /** Putting one more step into the chunk, and flushing the whole chunk when full. */
  lemma BlocksStep(u: units, rest: seq<units>, b: units, block: units, stale: units, chunk: units)
    requires b == block + u && 1 <= |u| <= 2 && |block| < 8192 && |b| <= |chunk| <= 8193 && chunk[..|b|] == b
    requires |b| < 8193 ==> Stale(chunk) == stale
    ensures Blocks([u] + rest, block, stale) ==
            if |b| > 8191 then chunk + Blocks(rest, chunk[..0], Stale(chunk)) else Blocks(rest, b, Stale(chunk))
  {
    assert ([u] + rest)[1..] == rest;
    if |b| == 8192 && |chunk| == 8193 { assert chunk == b + [chunk[8192]]; }
  }
}
