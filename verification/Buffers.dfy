/** Byte strings inside buffers. */
module Buffers {
  import opened Bits

  /** s stands at position pos of buf. */
  predicate Holds(buf: seq<byte>, pos: nat, s: seq<byte>) {
    pos + |s| <= |buf| && buf[pos..pos + |s|] == s
  }

  lemma HoldsAt(buf: seq<byte>, pos: nat, s: seq<byte>, i: nat)
    requires Holds(buf, pos, s) && i < |s|
    ensures pos + i < |buf| && buf[pos + i] == s[i]
  {
    assert buf[pos..pos + |s|][i] == s[i];
  }

  lemma HoldsSplit(buf: seq<byte>, pos: nat, a: seq<byte>, b: seq<byte>)
    requires Holds(buf, pos, a + b)
    ensures Holds(buf, pos, a) && Holds(buf, pos + |a|, b)
  {
    var s := a + b;
    assert buf[pos..pos + |a|] == buf[pos..pos + |s|][..|a|] == s[..|a|] == a;
    assert buf[pos + |a|..pos + |a| + |b|] == buf[pos..pos + |s|][|a|..] == s[|a|..] == b;
  }

  /** `buffer[offset++] = b` for each b in turn. */
  method Put(buffer: array<byte>, offset: nat, bs: seq<byte>)
    requires offset + |bs| <= buffer.Length
    modifies buffer
    ensures buffer[..] == old(buffer[..offset]) + bs + old(buffer[offset + |bs|..])
  {
    for k := 0 to |bs|
      invariant buffer[..] == old(buffer[..offset]) + bs[..k] + old(buffer[offset + k..])
    {
      buffer[offset + k] := bs[k];
    }
  }

  /** With the first k of all written between x and what is left of y, u is next. */
  lemma Placed(before: seq<byte>, x: seq<byte>, all: seq<byte>, y: seq<byte>, k: nat, u: seq<byte>, rest: seq<byte>)
    requires k <= |all| <= |y| && all[k..] == u + rest
    requires before == x + all[..k] + y[k..]
    ensures k + |u| <= |all| && all[k + |u|..] == rest && |x| + k + |u| <= |before|
    ensures before[..|x| + k] + u + before[|x| + k + |u|..] == x + all[..k + |u|] + y[k + |u|..]
  {
    assert all[..k + |u|] == all[..k] + all[k..][..|u|];
    assert all[k..][|u|..] == all[k + |u|..];
    assert before[..|x| + k] == x + all[..k];
    assert before[|x| + k..] == y[k..];
    assert before[|x| + k + |u|..] == before[|x| + k..][|u|..] == y[k..][|u|..] == y[k + |u|..];
  }

  /** The first k bytes of all have been written over y, which follows x. */
  ghost predicate Written(buf: seq<byte>, x: seq<byte>, all: seq<byte>, y: seq<byte>, k: nat) {
    k <= |all| <= |y| && buf == x + all[..k] + y[k..]
  }

  /** `buf[pos] = b`, where b is the next byte of all. */
  method StoreNext(buf: array<byte>, pos: nat, b: byte,
                   ghost x: seq<byte>, ghost all: seq<byte>, ghost y: seq<byte>, ghost k: nat, ghost rest: seq<byte>)
    requires Written(buf[..], x, all, y, k) && pos == |x| + k && all[k..] == [b] + rest
    modifies buf
    ensures Written(buf[..], x, all, y, k + 1) && all[k + 1..] == rest
  {
    ghost var before := buf[..];
    NextPlaced(before, x, all, y, k, b, rest);
    hide Written;
    buf[pos] := b;
    assert buf[..] == before[..pos] + [b] + before[pos + 1..];
  }

  lemma WrittenMore(before: seq<byte>, x: seq<byte>, all: seq<byte>, y: seq<byte>, k: nat, u: seq<byte>, rest: seq<byte>)
    requires Written(before, x, all, y, k) && all[k..] == u + rest
    ensures |x| + k + |u| <= |before| && k + |u| <= |all| && all[k + |u|..] == rest
    ensures Written(before[..|x| + k] + u + before[|x| + k + |u|..], x, all, y, k + |u|)
  {
    Placed(before, x, all, y, k, u, rest);
  }

  lemma NextPlaced(before: seq<byte>, x: seq<byte>, all: seq<byte>, y: seq<byte>, k: nat, b: byte, rest: seq<byte>)
    requires Written(before, x, all, y, k) && all[k..] == [b] + rest
    ensures |x| + k < |before| && k + 1 <= |all| && all[k + 1..] == rest
    ensures Written(before[..|x| + k] + [b] + before[|x| + k + 1..], x, all, y, k + 1)
  {
    Placed(before, x, all, y, k, [b], rest);
  }

  lemma WrittenAll(buf: seq<byte>, x: seq<byte>, all: seq<byte>, y: seq<byte>)
    requires Written(buf, x, all, y, |all|)
    ensures buf == x + all + y[|all|..]
  {}

  lemma WrittenNone(buf: seq<byte>, all: seq<byte>, pos: nat)
    requires pos + |all| <= |buf|
    ensures Written(buf, buf[..pos], all, buf[pos..], 0)
    ensures all[0..] == all && buf[pos..][|all|..] == buf[pos + |all|..]
  {}
}
