/** Base64 (section 4 of RFC 4648): the chunked encoder, the decoder and the length of the
    protobuf codec, and the encoder that sends files. Characters are their codes. */
module Base64 {
  import opened Bits
  import opened Buffers

  // The two tables.

  /** `i < 26 ? i + 65 : i < 52 ? i + 71 : i < 62 ? i - 4 : i - 59 | 43` */
  function Digit(i: nat): (c: nat)
    requires i < 64
    ensures c < 123 && c != 61
    ensures i >= 62 ==> c == if i == 62 then 43 else 47
  {
    LastDigits();
    if i < 26 then i + 65 else if i < 52 then i + 71 else if i < 62 then i - 4 else Or(i - 59, 43)
  }

  /** The last two digits of the table come from a bitwise or. */
  lemma LastDigits()
    ensures Or(62 - 59, 43) == 43 && Or(63 - 59, 43) == 47
  {
    hide Or;
    OrStep(3, 43);
    OrStep(1, 21);
    WithNone(10);
    OrStep(4, 43);
    OrStep(2, 21);
    OrStep(1, 10);
    WithNone(5);
  }

  datatype Sextet = Sextet(n: nat) | Undefined

  /** `s64[c]` */
  function Value(c: nat): (v: Sextet)
    ensures v.Sextet? ==> v.n < 64
  {
    if 65 <= c <= 90 then Sextet(c - 65)
    else if 97 <= c <= 122 then Sextet(c - 71)
    else if 48 <= c <= 57 then Sextet(c + 4)
    else if c == 43 then Sextet(62)
    else if c == 47 then Sextet(63)
    else Undefined
  }

  lemma TablesAreInverse(c: nat, i: nat)
    requires i < 64
    ensures Value(c) == Sextet(i) <==> c == Digit(i)
  {}

  const UPPER := "ABCDEFGHIJKLMNOPQRSTUVWXYZ"
  const LOWER := "abcdefghijklmnopqrstuvwxyz"

  /** `keyStr` */
  const KEYS := UPPER + LOWER + "0123456789+/="

  /** `keyStr.charAt(i)` agrees with the table; position 64 is the padding. */
  lemma KeysAreDigits(i: nat)
    requires i <= 64
    ensures |KEYS| == 65 && KEYS[i] as int == if i == 64 then 61 else Digit(i)
  {
    if i < 26 { assert KEYS[i] == UPPER[i]; }
    else if i < 52 { assert KEYS[i] == LOWER[i - 26]; }
    else { assert KEYS[i] == "0123456789+/="[i - 52]; }
  }

  /** Three bytes become four characters; one or two at the end are padded. */
  function Encoded(s: seq<byte>): (r: seq<nat>) {
    if s == [] then []
    else
      var a: int := s[0];
      if |s| == 1 then [Digit(a / 4), Digit(a % 4 * 16), 61, 61]
      else
        var b: int := s[1];
        if |s| == 2 then [Digit(a / 4), Digit(a % 4 * 16 + b / 16), Digit(b % 16 * 4), 61]
        else
          var c: int := s[2];
          [Digit(a / 4), Digit(a % 4 * 16 + b / 16), Digit(b % 16 * 4 + c / 64), Digit(c % 64)] + Encoded(s[3..])
  }

  // The state machine of the encoder: j counts the bytes of the group so far, t holds the
  // bits left over.

  /** A byte's pieces are sextets. */
  lemma Splits(j: nat, t: nat, b: nat)
    requires b < 256 && (j == 1 ==> t < 64 && t % 16 == 0) && (j == 2 ==> t < 64 && t % 4 == 0)
    ensures b / 4 < 64 && b % 4 * 16 < 64 && b % 4 * 16 % 16 == 0 && b % 64 < 64
    ensures b % 16 * 4 < 64 && b % 16 * 4 % 4 == 0 && (j == 1 ==> t + b / 16 < 64) && (j == 2 ==> t + b / 64 < 64)
  {}

  function Rest(j: nat, t: nat, s: seq<byte>): (r: seq<nat>)
    requires j < 3 && (j == 1 ==> t < 64 && t % 16 == 0) && (j == 2 ==> t < 64 && t % 4 == 0)
    decreases |s|
  {
    if s == [] then if j == 0 then [] else if j == 1 then [Digit(t), 61, 61] else [Digit(t), 61]
    else
      var b: int := s[0];
      Splits(j, t, b);
      if j == 0 then [Digit(b / 4)] + Rest(1, b % 4 * 16, s[1..])
      else if j == 1 then [Digit(t + b / 16)] + Rest(2, b % 16 * 4, s[1..])
      else [Digit(t + b / 64), Digit(b % 64)] + Rest(0, 0, s[1..])
  }

  lemma {:induction false} RestIsEncoded(s: seq<byte>, t: nat)
    ensures Rest(0, t, s) == Encoded(s)
    decreases |s|
  {
    if |s| == 1 {
      assert Rest(1, s[0] % 4 * 16, s[1..]) == [Digit(s[0] % 4 * 16), 61, 61];
    } else if |s| == 2 {
      var a: int, b: int := s[0], s[1];
      assert s[1..][1..] == [];
      assert Rest(2, b % 16 * 4, s[1..][1..]) == [Digit(b % 16 * 4), 61];
      assert Rest(1, a % 4 * 16, s[1..]) == [Digit(a % 4 * 16 + b / 16)] + [Digit(b % 16 * 4), 61];
    } else if |s| >= 3 {
      var a: int, b: int, c: int := s[0], s[1], s[2];
      assert s[1..][1..] == s[2..] && s[2..][1..] == s[3..];
      RestIsEncoded(s[3..], 0);
      assert Rest(2, b % 16 * 4, s[2..]) == [Digit(b % 16 * 4 + c / 64), Digit(c % 64)] + Rest(0, 0, s[3..]);
      assert Rest(1, a % 4 * 16, s[1..]) == [Digit(a % 4 * 16 + b / 16)] + Rest(2, b % 16 * 4, s[2..]);
    }
  }

  lemma Or4(a: nat, t: nat)
    requires a < 4 && t % 4 == 0
    ensures Or(a, t) == a + t && Or(t, a) == a + t
  {
    assert Pow2(2) == 4;
    hide Or, Pow2;
    OrDisjoint(a, t, 2);
  }

  lemma Or16(a: nat, t: nat)
    requires a < 16 && t % 16 == 0
    ensures Or(a, t) == a + t && Or(t, a) == a + t
  {
    assert Pow2(4) == 16;
    hide Or, Pow2;
    OrDisjoint(a, t, 4);
  }

  lemma Masks(b: nat)
    ensures And(b, 3) == b % 4 && And(b, 15) == b % 16 && And(b, 63) == b % 64
  {
    assert Pow2(2) == 4 && Pow2(4) == 16 && Pow2(6) == 64;
    hide And, Pow2;
    AndOnes(b, 2);
    AndOnes(b, 4);
    AndOnes(b, 6);
  }

  lemma RightShifts(b: nat)
    ensures Shr(b, 2) == b / 4 && Shr(b, 4) == b / 16 && Shr(b, 6) == b / 64
  {
    assert Pow2(2) == 4 && Pow2(4) == 16 && Pow2(6) == 64;
    hide Pow2, Shr;
    Shifts(b, 2, 4);
    Shifts(b, 4, 16);
    Shifts(b, 6, 64);
  }

  lemma LeftShifts(b: nat)
    requires b < 64
    ensures Shl(b, 2) == b * 4 && Shl(b, 4) == b * 16 && Shl(b, 6) == b * 64
  {
    assert Pow2(2) == 4 && Pow2(4) == 16 && Pow2(6) == 64;
    hide Pow2, Shl;
    Shifts(b, 2, 4);
    Shifts(b, 4, 16);
    Shifts(b, 6, 64);
  }

  /** The bits that the encoders cut out of a byte and put together. */
  lemma EncoderBits(t: nat, b: byte)
    ensures Shr(b, 2) == b / 4 && Shl(And(b, 3), 4) == b % 4 * 16
    ensures Shr(b, 4) == b / 16 && Shl(And(b, 15), 2) == b % 16 * 4
    ensures Shr(b, 6) == b / 64 && And(b, 63) == b % 64
    ensures t % 16 == 0 ==> Or(t, Shr(b, 4)) == t + b / 16
    ensures t % 4 == 0 ==> Or(t, Shr(b, 6)) == t + b / 64
  {
    hide And, Or, Shl, Shr;
    Masks(b);
    RightShifts(b);
    LeftShifts(b % 4);
    LeftShifts(b % 16);
    if t % 16 == 0 { Or16(b / 16, t); }
    if t % 4 == 0 { Or4(b / 64, t); }
  }

  /** `chunk[i] = c` on an array that grows by one at its end. */
  function Store(chunk: seq<nat>, i: nat, c: nat): (r: seq<nat>)
    requires i <= |chunk|
    ensures |r| == (if i == |chunk| then i + 1 else |chunk|) && r[..i + 1] == chunk[..i] + [c]
  {
    if i == |chunk| then chunk + [c] else chunk[i := c]
  }

  function Joined(parts: seq<seq<nat>>): (r: seq<nat>) {
    if parts == [] then [] else Joined(parts[..|parts| - 1]) + parts[|parts| - 1]
  }

  /** One turn of the switch: the characters that byte b completes, and the bits it leaves. */
  lemma RestStep(j: nat, t: nat, s: seq<byte>)
    requires j < 3 && (j == 1 ==> t < 64 && t % 16 == 0) && (j == 2 ==> t < 64 && t % 4 == 0) && s != []
    ensures var b: int := s[0];
            && Shr(b, 2) < 64 && Shl(And(b, 3), 4) < 64 && Shl(And(b, 3), 4) % 16 == 0 && And(b, 63) < 64
            && (j == 1 ==> Or(t, Shr(b, 4)) < 64) && Shl(And(b, 15), 2) < 64 && Shl(And(b, 15), 2) % 4 == 0
            && (j == 2 ==> Or(t, Shr(b, 6)) < 64)
            && Rest(j, t, s) ==
               if j == 0 then [Digit(Shr(b, 2))] + Rest(1, Shl(And(b, 3), 4), s[1..])
               else if j == 1 then [Digit(Or(t, Shr(b, 4)))] + Rest(2, Shl(And(b, 15), 2), s[1..])
               else [Digit(Or(t, Shr(b, 6))), Digit(And(b, 63))] + Rest(0, t, s[1..])
  {
    hide Or, And, Shr, Shl, Encoded, Digit;
    var b: int := s[0];
    EncoderBits(t, b);
    ByteParts(t, b);
    RestIsEncoded(s[1..], 0);
    RestIsEncoded(s[1..], t);
  }

  lemma ByteParts(t: nat, b: byte)
    ensures b / 4 < 64 && b % 4 * 16 < 64 && b % 4 * 16 % 16 == 0 && b % 16 * 4 < 64 && b % 16 * 4 % 4 == 0
    ensures t < 64 && t % 16 == 0 ==> t + b / 16 < 64
    ensures t < 64 && t % 4 == 0 ==> t + b / 64 < 64
  {}

  /** What is put at index i of the chunk comes behind everything put so far. */
  lemma StoreLast(parts: seq<seq<nat>>, chunk: seq<nat>, i: nat, c: nat, rest: seq<nat>)
    requires i <= |chunk|
    ensures |Store(chunk, i, c)| == if i == |chunk| then i + 1 else |chunk|
    ensures Joined(parts) + Store(chunk, i, c)[..i + 1] + rest == Joined(parts) + chunk[..i] + ([c] + rest)
  {
    hide Joined;
    assert Joined(parts) + (chunk[..i] + [c]) + rest == Joined(parts) + chunk[..i] + ([c] + rest);
  }

  lemma JoinedPush(parts: seq<seq<nat>>, chunk: seq<nat>)
    ensures Joined(parts + [chunk]) == Joined(parts) + chunk
  {
    assert (parts + [chunk])[..|parts|] == parts;
  }

  lemma StoreTwo(parts: seq<seq<nat>>, chunk: seq<nat>, i: nat, c: nat, d: nat, rest: seq<nat>)
    requires i <= |chunk|
    ensures var r := Store(Store(chunk, i, c), i + 1, d);
            && |r| == (if i + 2 <= |chunk| then |chunk| else i + 2)
            && Joined(parts) + r[..i + 2] + rest == Joined(parts) + chunk[..i] + ([c, d] + rest)
  {
    hide Joined, Store;
    StoreLast(parts, chunk, i, c, [d] + rest);
    StoreLast(parts, Store(chunk, i, c), i + 1, d, rest);
    assert [c, d] + rest == [c] + ([d] + rest);
  }

  /** What has been encoded and what is left make up the whole encoding. */
  ghost predicate Going(parts: seq<seq<nat>>, chunk: seq<nat>, i: nat, j: nat, t: nat, rest: seq<byte>, all: seq<nat>) {
    && j < 3 && (j == 1 ==> t < 64 && t % 16 == 0) && (j == 2 ==> t < 64 && t % 4 == 0)
    && i <= |chunk| <= 8192 && (parts != [] ==> |chunk| == 8192)
    && Joined(parts) + chunk[..i] + Rest(j, t, rest) == all
  }

  /** The first byte of a group. */
  lemma StepFirst(parts: seq<seq<nat>>, chunk: seq<nat>, i: nat, t: nat, s: seq<byte>, all: seq<nat>)
    requires Going(parts, chunk, i, 0, t, s, all) && s != [] && i < 8192
    ensures Shr(s[0], 2) < 64
    ensures Going(parts, Store(chunk, i, Digit(Shr(s[0], 2))), i + 1, 1, Shl(And(s[0], 3), 4), s[1..], all)
  {
    hide Rest, Or, And, Shr, Shl, Joined, Digit, Store;
    RestStep(0, t, s);
    StoreLast(parts, chunk, i, Digit(Shr(s[0], 2)), Rest(1, Shl(And(s[0], 3), 4), s[1..]));
  }

  lemma StepSecond(parts: seq<seq<nat>>, chunk: seq<nat>, i: nat, t: nat, s: seq<byte>, all: seq<nat>)
    requires Going(parts, chunk, i, 1, t, s, all) && s != [] && i < 8192
    ensures Or(t, Shr(s[0], 4)) < 64
    ensures Going(parts, Store(chunk, i, Digit(Or(t, Shr(s[0], 4)))), i + 1, 2, Shl(And(s[0], 15), 2), s[1..], all)
  {
    hide Rest, Or, And, Shr, Shl, Joined, Digit, Store;
    RestStep(1, t, s);
    StoreLast(parts, chunk, i, Digit(Or(t, Shr(s[0], 4))), Rest(2, Shl(And(s[0], 15), 2), s[1..]));
  }

  /** The third byte completes two characters. */
  lemma StepThird(parts: seq<seq<nat>>, chunk: seq<nat>, i: nat, t: nat, s: seq<byte>, all: seq<nat>)
    requires Going(parts, chunk, i, 2, t, s, all) && s != [] && i + 1 < 8192
    ensures Or(t, Shr(s[0], 6)) < 64 && And(s[0], 63) < 64
    ensures Going(parts, Store(Store(chunk, i, Digit(Or(t, Shr(s[0], 6)))), i + 1, Digit(And(s[0], 63))), i + 2, 0, t, s[1..], all)
  {
    hide Rest, Or, And, Shr, Shl, Joined, Digit, Store;
    RestStep(2, t, s);
    StoreTwo(parts, chunk, i, Digit(Or(t, Shr(s[0], 6))), Digit(And(s[0], 63)), Rest(0, t, s[1..]));
  }

  /** A full chunk is put aside. */
  lemma Flush(parts: seq<seq<nat>>, chunk: seq<nat>, t: nat, rest: seq<byte>, all: seq<nat>)
    requires Going(parts, chunk, 8192, 0, t, rest, all)
    ensures Going(parts + [chunk], chunk, 0, 0, t, rest, all)
  {
    hide Joined, Rest;
    JoinedPush(parts, chunk);
    assert chunk[..8192] == chunk && Joined(parts + [chunk]) + chunk[..0] == Joined(parts) + chunk;
  }

  /** Fills a chunk and puts it aside whenever it is full, which happens between two
      groups only. */
  method Encode(buffer: seq<byte>, begin: nat, end: nat) returns (r: seq<nat>)
    requires begin <= end <= |buffer|
    ensures r == Encoded(buffer[begin..end])
  {
    hide Rest, Or, And, Shr, Shl, Encoded, Joined, Digit, Store, Going;
    var parts: seq<seq<nat>>, chunk: seq<nat> := [], [];
    var i, j, t, start := 0, 0, 0, begin;
    ghost var groups, all := 0, Encoded(buffer[begin..end]);
    NothingYet(buffer[begin..end]);
    while start < end
      invariant begin <= start <= end && i == 4 * groups + j <= 8191 && j < 3
      invariant Going(parts, chunk, i, j, t, buffer[start..end], all)
      decreases end - start
    {
      var b: int := buffer[start];
      ghost var s := buffer[start..end];
      assert s[0] == b && s[1..] == buffer[start + 1..end];
      GoingMeans(parts, chunk, i, j, t, s, all);
      start := start + 1;
      if j == 0 {
        StepFirst(parts, chunk, i, t, s, all);
        chunk := Store(chunk, i, Digit(Shr(b, 2)));
        i := i + 1;
        t := Shl(And(b, 3), 4);
        j := 1;
      } else if j == 1 {
        StepSecond(parts, chunk, i, t, s, all);
        chunk := Store(chunk, i, Digit(Or(t, Shr(b, 4))));
        i := i + 1;
        t := Shl(And(b, 15), 2);
        j := 2;
      } else {
        StepThird(parts, chunk, i, t, s, all);
        chunk := Store(chunk, i, Digit(Or(t, Shr(b, 6))));
        chunk := Store(chunk, i + 1, Digit(And(b, 63)));
        i := i + 2;
        j := 0;
        groups := groups + 1;
      }
      if i > 8191 {
        Flush(parts, chunk, t, buffer[start..end], all);
        parts := parts + [chunk];
        i, groups := 0, 0;
      }
    }
    GoingMeans(parts, chunk, i, j, t, buffer[start..end], all);
    r := Finish(parts, chunk, i, j, t, buffer[start..end]);
  }

  lemma NothingYet(s: seq<byte>)
    ensures Going([], [], 0, 0, 0, s, Encoded(s))
  {
    hide Rest, Encoded;
    RestIsEncoded(s, 0);
    JoinedNone();
  }

  lemma GoingMeans(parts: seq<seq<nat>>, chunk: seq<nat>, i: nat, j: nat, t: nat, rest: seq<byte>, all: seq<nat>)
    requires Going(parts, chunk, i, j, t, rest, all)
    ensures j < 3 && (j == 1 ==> t < 64 && t % 16 == 0) && (j == 2 ==> t < 64 && t % 4 == 0)
    ensures i <= |chunk| && Joined(parts) + chunk[..i] + Rest(j, t, rest) == all
  {}

  /** What follows the loop: padding, and the last chunk. */
  method Finish(parts: seq<seq<nat>>, chunk: seq<nat>, i: nat, j: nat, t: nat, ghost s: seq<byte>) returns (r: seq<nat>)
    requires j < 3 && (j == 1 ==> t < 64 && t % 16 == 0) && (j == 2 ==> t < 64 && t % 4 == 0) && s == []
    requires i <= |chunk|
    ensures r == Joined(parts) + chunk[..i] + Rest(j, t, s)
  {
    hide Joined, Digit, Store;
    RestEnd(j, t, s);
    JoinedNone();
    var chunk, i := chunk, i;
    ghost var out := Joined(parts) + chunk[..i] + Rest(j, t, s);
    if j != 0 {
      var pad := if j == 1 then [61] else [];
      assert Rest(j, t, s) == [Digit(t)] + ([61] + pad);
      StoreLast(parts, chunk, i, Digit(t), [61] + pad);
      chunk := Store(chunk, i, Digit(t));
      StoreLast(parts, chunk, i + 1, 61, pad);
      chunk := Store(chunk, i + 1, 61);
      i := i + 2;
      if j == 1 {
        StoreLast(parts, chunk, i, 61, []);
        chunk := Store(chunk, i, 61);
        i := i + 1;
      }
    }
    assert out == Joined(parts) + chunk[..i];
    if parts != [] {
      JoinedPush(parts, chunk[..i]);
      return Joined(if i != 0 then parts + [chunk[..i]] else parts);
    }
    return chunk[..i];
  }

  lemma JoinedNone()
    ensures Joined([]) == []
  {}

  lemma RestEnd(j: nat, t: nat, s: seq<byte>)
    requires j < 3 && (j == 1 ==> t < 64 && t % 16 == 0) && (j == 2 ==> t < 64 && t % 4 == 0) && s == []
    ensures Rest(j, t, s) == if j == 0 then [] else if j == 1 then [Digit(t), 61, 61] else [Digit(t), 61]
  {}

  // The decoder.

  /** The bytes written, and whether decoding went through. */
  datatype Result = Result(bytes: seq<byte>, valid: bool)

  function Prepend(b: byte, r: Result): (q: Result) {
    Result([b] + r.bytes, r.valid)
  }

  /** From a state with j characters of the group read, the last of value t. */
  function Decoded(j: nat, t: nat, s: seq<nat>): (r: Result)
    requires j < 4 && t < 64
    decreases |s|
  {
    if s == [] then Result([], j != 1)
    else if s[0] == 61 && j > 1 then Result([], true)
    else
      match Value(s[0])
      case Undefined => Result([], false)
      case Sextet(c) =>
        if j == 0 then Decoded(1, c, s[1..])
        else if j == 1 then Prepend(t * 4 + c / 16, Decoded(2, c, s[1..]))
        else if j == 2 then Prepend(t % 16 * 16 + c / 4, Decoded(3, c, s[1..]))
        else Prepend(t % 4 * 64 + c, Decoded(0, c, s[1..]))
  }

  lemma HighMasks(c: nat)
    requires c < 64
    ensures And(c, 48) == c - c % 16 && And(c, 60) == c - c % 4
  {
    assert Pow2(2) == 4 && Pow2(4) == 16 && Pow2(6) == 64;
    hide And, Pow2;
    AndHigh(c, 6, 4);
    AndHigh(c, 6, 2);
  }

  lemma DecoderBits(t: nat, c: nat)
    requires t < 64 && c < 64
    ensures Or(Shl(t, 2), Shr(And(c, 48), 4)) == t * 4 + c / 16
    ensures Or(Shl(And(t, 15), 4), Shr(And(c, 60), 2)) == t % 16 * 16 + c / 4
    ensures Or(Shl(And(t, 3), 6), c) == t % 4 * 64 + c
  {
    hide And, Or, Shl, Shr;
    HighMasks(c);
    Masks(t);
    LeftShifts(t);
    LeftShifts(t % 16);
    LeftShifts(t % 4);
    HighParts(c);
    LowParts(t, c);
  }

  lemma HighParts(c: nat)
    requires c < 64
    ensures Shr(c - c % 16, 4) == c / 16 && Shr(c - c % 4, 2) == c / 4
  {
    hide Shr;
    RightShifts(c - c % 16);
    RightShifts(c - c % 4);
  }

  lemma LowParts(t: nat, c: nat)
    requires t < 64 && c < 64
    ensures Or(t * 4, c / 16) == t * 4 + c / 16
    ensures Or(t % 16 * 16, c / 4) == t % 16 * 16 + c / 4
    ensures Or(t % 4 * 64, c) == t % 4 * 64 + c
  {
    SextetPowers();
    hide Or, Pow2;
    OrAbove(t, c / 16, 2, 4);
    OrAbove(t % 16, c / 4, 4, 16);
    OrAbove(t % 4, c, 6, 64);
  }

  lemma SextetPowers()
    ensures Pow2(2) == 4 && Pow2(4) == 16 && Pow2(6) == 64
  {}

  datatype Count = Count(n: nat) | InvalidEncoding

  /** `c === 61 && j > 1`, an invalid character, or the end of the string */
  predicate Stops(j: nat, s: seq<nat>) {
    s == [] || (s[0] == 61 && j > 1) || Value(s[0]) == Undefined
  }

  lemma DecodeStops(j: nat, t: nat, s: seq<nat>)
    requires j < 4 && t < 64 && Stops(j, s)
    ensures Decoded(j, t, s) == Result([], if s == [] then j != 1 else s[0] == 61 && j > 1)
  {
    hide Value;
  }

  function Joint(j: nat, t: nat, c: nat): (b: nat)
  {
    if j == 1 then Or(Shl(t, 2), Shr(And(c, 48), 4))
    else if j == 2 then Or(Shl(And(t, 15), 4), Shr(And(c, 60), 2))
    else Or(Shl(And(t, 3), 6), c)
  }

  lemma DecodeStep(j: nat, t: nat, s: seq<nat>)
    requires j < 4 && t < 64 && !Stops(j, s)
    ensures var c := Value(s[0]).n;
            Joint(j, t, c) < 256 &&
            Decoded(j, t, s) == if j == 0 then Decoded(1, c, s[1..])
                                else Prepend(Joint(j, t, c), Decoded((j + 1) % 4, c, s[1..]))
  {
    hide Value, Or, Shl, Shr, And;
    DecoderBits(t, Value(s[0]).n);
  }

  /** Writes the bytes decoded, also those in front of an invalid character. */
  method Decode(s: seq<nat>, buffer: array<byte>, offset: nat) returns (r: Count)
    requires offset + |Decoded(0, 0, s).bytes| <= buffer.Length
    modifies buffer
    ensures var d := Decoded(0, 0, s);
            && r == (if d.valid then Count(|d.bytes|) else InvalidEncoding)
            && buffer[..] == old(buffer[..offset]) + d.bytes + old(buffer[offset + |d.bytes|..])
  {
    hide Or, Shl, Shr, And, Value, Decoded, Written;
    ghost var x, y, all := buffer[..offset], buffer[offset..], Decoded(0, 0, s).bytes;
    WrittenNone(buffer[..], all, offset);
    var start, offset := offset, offset;
    var j, t, i := 0, 0, 0;
    assert s[0..] == s;
    while i < |s|
      invariant i <= |s| && j < 4 && t < 64 && start <= offset <= start + |all|
      invariant all[offset - start..] == Decoded(j, t, s[i..]).bytes
      invariant Decoded(j, t, s[i..]).valid == Decoded(0, 0, s).valid
      invariant Written(buffer[..], x, all, y, offset - start)
    {
      var c := s[i];
      if c == 61 && j > 1 {
        DecodeStops(j, t, s[i..]);
        break;
      }
      var v := Value(c);
      if v == Undefined {
        DecodeStops(j, t, s[i..]);
        WrittenAll(buffer[..], x, all, y);
        return InvalidEncoding;
      }
      DecodeStep(j, t, s[i..]);
      assert s[i..][1..] == s[i + 1..];
      i := i + 1;
      if j > 0 {
        ghost var rest := Decoded((j + 1) % 4, v.n, s[i..]).bytes;
        var b := if j == 1 then Or(Shl(t, 2), Shr(And(v.n, 48), 4))
                 else if j == 2 then Or(Shl(And(t, 15), 4), Shr(And(v.n, 60), 2))
                 else Or(Shl(And(t, 3), 6), v.n);
        StoreNext(buffer, offset, b, x, all, y, offset - start, rest);
        offset := offset + 1;
      }
      j := if j == 3 then 0 else j + 1;
      t := v.n;
    }
    if i == |s| { DecodeStops(j, t, s[i..]); }
    WrittenAll(buffer[..], x, all, y);
    if j == 1 { return InvalidEncoding; }
    return Count(offset - start);
  }

  lemma DecodeFirst(j: nat, t: nat, n: nat, s: seq<nat>)
    requires j < 4 && t < 64 && n < 64
    ensures Decoded(j, t, [Digit(n)] + s) ==
            if j == 0 then Decoded(1, n, s)
            else if j == 1 then Prepend(t * 4 + n / 16, Decoded(2, n, s))
            else if j == 2 then Prepend(t % 16 * 16 + n / 4, Decoded(3, n, s))
            else Prepend(t % 4 * 64 + n, Decoded(0, n, s))
  {
    hide Digit, Value;
    TablesAreInverse(Digit(n), n);
    assert ([Digit(n)] + s)[1..] == s;
  }

  lemma DecodePad(j: nat, t: nat, s: seq<nat>)
    requires 1 < j < 4 && t < 64
    ensures Decoded(j, t, [61] + s) == Decoded(j, t, []) == Result([], true)
  {}

  /** The digits of a group of three bytes decode to the bytes. */
  lemma DecodeGroup(a: byte, b: byte, c: byte, s: seq<nat>, t: nat)
    requires t < 64
    ensures var A: int, B: int, C: int := a, b, c;
            Decoded(0, t, [Digit(A / 4), Digit(A % 4 * 16 + B / 16), Digit(B % 16 * 4 + C / 64), Digit(C % 64)] + s)
            == Prepend(a, Prepend(b, Prepend(c, Decoded(0, C % 64, s))))
  {
    hide Decoded, Digit;
    var A: int, B: int, C: int := a, b, c;
    var d0, d1, d2, d3 := A / 4, A % 4 * 16 + B / 16, B % 16 * 4 + C / 64, C % 64;
    var s3 := [Digit(d3)] + s;
    var s2 := [Digit(d2)] + s3;
    var s1 := [Digit(d1)] + s2;
    DecodeFirst(0, t, d0, s1);
    DecodeFirst(1, d0, d1, s2);
    DecodeFirst(2, d1, d2, s3);
    DecodeFirst(3, d2, d3, s);
    assert [Digit(d0), Digit(d1), Digit(d2), Digit(d3)] + s == [Digit(d0)] + s1;
  }

  /** A last group of one or two bytes, with or without its padding. */
  lemma DecodeEnd(a: byte, b: byte, t: nat, s: seq<nat>)
    requires t < 64 && (s == [] || s[0] == 61)
    ensures var A: int := a; Decoded(0, t, [Digit(A / 4), Digit(A % 4 * 16)] + s) == Result([a], true)
    ensures var A: int, B: int := a, b;
            Decoded(0, t, [Digit(A / 4), Digit(A % 4 * 16 + B / 16), Digit(B % 16 * 4)] + s) == Result([a, b], true)
  {
    hide Decoded, Digit;
    var A: int, B: int := a, b;
    var d0, d1, e1, e2 := A / 4, A % 4 * 16, A % 4 * 16 + B / 16, B % 16 * 4;
    assert s == [] || s == [61] + s[1..];
    DecodeFirst(0, t, d0, [Digit(d1)] + s);
    DecodeFirst(1, d0, d1, s);
    DecodePad(2, d1, if s == [] then [] else s[1..]);
    DecodeFirst(0, t, d0, [Digit(e1)] + ([Digit(e2)] + s));
    DecodeFirst(1, d0, e1, [Digit(e2)] + s);
    DecodeFirst(2, e1, e2, s);
    DecodePad(3, e2, if s == [] then [] else s[1..]);
    assert [Digit(d0), Digit(d1)] + s == [Digit(d0)] + ([Digit(d1)] + s);
    assert [Digit(d0), Digit(e1), Digit(e2)] + s == [Digit(d0)] + ([Digit(e1)] + ([Digit(e2)] + s));
  }

  /** Decoding the encoding of any bytes restores them. */
  lemma {:induction false} RoundTrip(s: seq<byte>, t: nat)
    requires t < 64
    ensures Decoded(0, t, Encoded(s)) == Result(s, true)
    decreases |s|
  {
    hide Decoded, Digit;
    if s == [] {
      DecodeNothing(t);
    } else if |s| == 1 {
      DecodeEnd(s[0], 0, t, [61, 61]);
      var a: int := s[0];
      assert [Digit(a / 4), Digit(a % 4 * 16)] + [61, 61] == Encoded(s);
      assert s == [s[0]];
    } else if |s| == 2 {
      DecodeEnd(s[0], s[1], t, [61]);
      var a: int, b: int := s[0], s[1];
      assert [Digit(a / 4), Digit(a % 4 * 16 + b / 16), Digit(b % 16 * 4)] + [61] == Encoded(s);
      assert s == [s[0], s[1]];
    } else {
      RoundTrip(s[3..], s[2] % 64);
      DecodeGroup(s[0], s[1], s[2], Encoded(s[3..]), t);
      assert s == [s[0]] + ([s[1]] + ([s[2]] + s[3..]));
    }
  }

  lemma DecodeNothing(t: nat)
    requires t < 64
    ensures Decoded(0, t, []) == Result([], true)
  {}

  // The predicted length.

  /** How many of the last characters, at positions 3 and 2 modulo 4, are padding. */
  function Pads(s: seq<nat>, p: nat): (n: nat)
    requires p <= |s|
  {
    if p > 0 && (p - 1) % 4 > 1 && s[p - 1] == 61 then 1 + Pads(s, p - 1) else 0
  }

  /** `Math.ceil(string.length * 3) / 4 - n` */
  method Length(s: seq<nat>) returns (r: real)
    ensures r == (|s| * 3) as real / 4.0 - Pads(s, |s|) as real
  {
    var p := |s|;
    if p == 0 { return 0.0; }
    var n := 0;
    p := p - 1;
    while p % 4 > 1 && s[p] == 61
      invariant 0 <= p < |s| && n + Pads(s, p + 1) == Pads(s, |s|)
    {
      n := n + 1;
      p := p - 1;
    }
    return (|s| * 3) as real / 4.0 - n as real;
  }

  /** Four characters for three bytes, less one for each padding character. */
  lemma {:induction false} PadsOfEncoded(s: seq<byte>)
    ensures |Encoded(s)| % 4 == 0 && |Encoded(s)| * 3 == 4 * (|s| + Pads(Encoded(s), |Encoded(s)|))
    decreases |s|
  {
    hide Digit;
    var e := Encoded(s);
    if |s| == 1 {
      assert |e| == 4 && e[3] == 61 && e[2] == 61;
      assert Pads(e, 2) == 0;
    } else if |s| == 2 {
      assert |e| == 4 && e[3] == 61 && e[2] != 61;
      assert Pads(e, 3) == 0;
    } else if |s| >= 3 {
      EncodedThree(s);
      hide Encoded, Pads;
      PadsOfEncoded(s[3..]);
      PadsSuffix(e[..4], Encoded(s[3..]));
    }
  }

  lemma EncodedThree(s: seq<byte>)
    requires |s| >= 3
    ensures var e := Encoded(s); |e| >= 4 && e[3] != 61 && e == e[..4] + Encoded(s[3..])
  {
    hide Digit;
  }

  /** Only the last two characters matter, and a full group has no padding. */
  lemma PadsSuffix(a: seq<nat>, s: seq<nat>)
    requires |a| == 4 && a[3] != 61 && |s| % 4 == 0
    ensures Pads(a + s, |a + s|) == Pads(s, |s|)
  {
    var r, n := a + s, |s|;
    assert (n + 3) % 4 == 3 && (n + 2) % 4 == 2 && (n + 1) % 4 == 1;
    if n == 0 {
      assert r[3] == a[3];
    } else {
      assert (n - 1) % 4 == 3 && (n - 2) % 4 == 2 && (n - 3) % 4 == 1;
      assert r[n + 3] == s[n - 1] && r[n + 2] == s[n - 2];
      assert Pads(r, n + 2) == 0 && Pads(s, n - 2) == 0;
    }
  }

  /** The length predicts how many bytes an encoding stands for. */
  lemma LengthOfEncoded(s: seq<byte>)
    ensures var e := Encoded(s); (|e| * 3) as real / 4.0 - Pads(e, |e|) as real == |s| as real
  {
    hide Encoded, Pads;
    PadsOfEncoded(s);
  }

  // The encoder of the file sender.

  /** A JavaScript number that may be missing. */
  datatype Number = Number(n: nat) | NaN

  function IntOf(x: Number): (n: nat) {
    if x.NaN? then 0 else x.n
  }

  /** Encodes the three bytes at hand, or the one or two that are left. */
  method EncodeFile(input: seq<byte>) returns (output: seq<nat>)
    ensures output == Encoded(input)
  {
    hide Or, And, Shr, Shl, Digit, Encoded, KEYS;
    output := [];
    var i := 0;
    assert input[0..] == input;
    while i < |input|
      invariant i <= |input|
      invariant output + Encoded(input[i..]) == Encoded(input)
    {
      ghost var rest := input[i..];
      var chr1 := Number(input[i]);
      i := i + 1;
      var chr2, chr3 := NaN, NaN;
      if i < |input| { chr2 := Number(input[i]); i := i + 1; }
      if i < |input| { chr3 := Number(input[i]); i := i + 1; }
      var enc1 := Shr(IntOf(chr1), 2);
      var enc2 := Or(Shl(And(IntOf(chr1), 3), 4), Shr(IntOf(chr2), 4));
      var enc3 := Or(Shl(And(IntOf(chr2), 15), 2), Shr(IntOf(chr3), 6));
      var enc4 := And(IntOf(chr3), 63);
      if chr2 == NaN {
        enc3, enc4 := 64, 64;
      } else if chr3 == NaN {
        enc4 := 64;
      }
      FileGroup(rest);
      var four := [KEYS[enc1] as int, KEYS[enc2] as int, KEYS[enc3] as int, KEYS[enc4] as int];
      assert input[i..] == if |rest| > 2 then rest[3..] else [];
      Regroup(output, four, Encoded(input[i..]));
      output := output + four;
    }
    NoGroup(input[i..]);
    assert output + [] == output;
  }

  lemma GroupBits(a: byte, b: byte, c: byte)
    ensures Shr(a, 2) == a / 4
    ensures Or(Shl(And(a, 3), 4), Shr(b, 4)) == a % 4 * 16 + b / 16
    ensures Or(Shl(And(b, 15), 2), Shr(c, 6)) == b % 16 * 4 + c / 64
    ensures And(c, 63) == c % 64
  {
    hide Or, And, Shr, Shl;
    var t, u := a % 4 * 16, b % 16 * 4;
    ByteParts(0, a);
    ByteParts(0, b);
    EncoderBits(0, a);
    EncoderBits(t, b);
    EncoderBits(u, c);
  }

  lemma NextGroup(s: seq<byte>)
    requires s != []
    ensures var a: int, b: int, c: int := s[0], if |s| > 1 then s[1] else 0, if |s| > 2 then s[2] else 0;
            Encoded(s) == [Digit(a / 4), Digit(a % 4 * 16 + b / 16),
                           if |s| > 1 then Digit(b % 16 * 4 + c / 64) else 61,
                           if |s| > 2 then Digit(c % 64) else 61] + Encoded(if |s| > 2 then s[3..] else [])
  {
    hide Digit;
  }

  /** The four characters of the next one to three bytes. */
  lemma FileGroup(s: seq<byte>)
    requires s != []
    ensures var a: int, b: int, c: int := s[0], if |s| > 1 then s[1] else 0, if |s| > 2 then s[2] else 0;
            var enc1, enc2 := Shr(a, 2), Or(Shl(And(a, 3), 4), Shr(b, 4));
            var enc3 := if |s| > 1 then Or(Shl(And(b, 15), 2), Shr(c, 6)) else 64;
            var enc4 := if |s| > 2 then And(c, 63) else 64;
            && enc1 < |KEYS| && enc2 < |KEYS| && enc3 < |KEYS| && enc4 < |KEYS|
            && Encoded(s) == [KEYS[enc1] as int, KEYS[enc2] as int, KEYS[enc3] as int, KEYS[enc4] as int]
                             + Encoded(if |s| > 2 then s[3..] else [])
  {
    hide Or, And, Shr, Shl, Digit, Encoded, KEYS;
    var a: int, b: int, c: int := s[0], if |s| > 1 then s[1] else 0, if |s| > 2 then s[2] else 0;
    GroupBits(a, b, c);
    NextGroup(s);
    KeysAreDigits(a / 4);
    KeysAreDigits(a % 4 * 16 + b / 16);
    KeysAreDigits(if |s| > 1 then b % 16 * 4 + c / 64 else 64);
    KeysAreDigits(if |s| > 2 then c % 64 else 64);
  }

  lemma Regroup(a: seq<nat>, b: seq<nat>, c: seq<nat>)
    ensures a + (b + c) == a + b + c
  {}

  lemma NoGroup(s: seq<byte>)
    requires s == []
    ensures Encoded(s) == []
  {}

  /** The file encoder and the codec's encoder agree, whatever the chunks. */
  method BothEncoders(input: seq<byte>) returns (a: seq<nat>, b: seq<nat>)
    ensures a == b && Decoded(0, 0, a) == Result(input, true)
  {
    hide Decoded, Encoded;
    a := EncodeFile(input);
    b := Encode(input, 0, |input|);
    assert input[0..|input|] == input;
    RoundTrip(input, 0);
  }
}
