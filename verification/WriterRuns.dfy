/** Any run of Writer calls, against a stack of byte strings. */
module WriterRuns {
  import opened Bits
  import opened Buffers
  import opened Varints
  import opened Long
  import opened Utf8Codec
  import opened Writers

  datatype Call =
    | UInt32(n: int) | Int32(n: int) | SInt32(n: int) | Int64(n: int) | SInt64(n: int)
    | Bool(b: bool) | Fixed32(n: int) | Fixed64(n: int)
    | Raw(bytes: seq<byte>) | BytesField(bytes: seq<byte>) | StringField(s: units)
    | Fork | Reset | LDelim

  /** Calls whose argument belongs to the method. */
  predicate Proper(c: Call) {
    match c
    case Int32(n) => -0x8000_0000 <= n < 0x8000_0000
    case SInt32(n) => -0x8000_0000 <= n < 0x8000_0000
    case BytesField(bytes) => |bytes| < TWO32
    case _ => true
  }

  /** The bytes that a call appends. */
  function Appended(c: Call): (r: seq<byte>) {
    match c
    case UInt32(n) => Varint(ToUint32(n))
    case Int32(n) => Varint(n % TWO64)
    case SInt32(n) => Varint(ZigZag(n))
    case Int64(n) => Varint(n % TWO64)
    case SInt64(n) => Varint(ZigZag(Signed64(n % TWO64)))
    case Bool(b) => [if b then 1 else 0]
    case Fixed32(n) => Fixed32Bytes(ToUint32(n))
    case Fixed64(n) => Fixed64Bytes(n % TWO64)
    case Raw(bytes) => bytes
    case BytesField(bytes) => Varint(|bytes|) + bytes
    case StringField(s) => Varint(ToUint32(|Utf8(s)|)) + Utf8(s)
    case _ => []
  }

  type Stack = s: seq<seq<byte>> | |s| >= 1 witness [[]]

  function Below(stack: Stack): (r: Stack) {
    if |stack| > 1 then stack[..|stack| - 1] else [[]]
  }

  function Top(stack: Stack): (r: seq<byte>) {
    stack[|stack| - 1]
  }

  function After(stack: Stack, c: Call): (r: Stack) {
    match c
    case Fork => stack + [[]]
    case Reset => Below(stack)
    case LDelim => Extended(Below(stack), Varint(ToUint32(|Top(stack)|)) + Top(stack))
    case _ => Extended(stack, Appended(c))
  }

  function Run(stack: Stack, calls: seq<Call>): (r: Stack)
    decreases |calls|
  {
    if calls == [] then stack else Run(After(stack, calls[0]), calls[1..])
  }

  /** Every fork is taken back by a reset or an ldelim, and none that is not there. */
  predicate Balanced(calls: seq<Call>, depth: nat)
    decreases |calls|
  {
    if calls == [] then depth == 0
    else if calls[0].Fork? then Balanced(calls[1..], depth + 1)
    else if calls[0].Reset? || calls[0].LDelim? then depth > 0 && Balanced(calls[1..], depth - 1)
    else Balanced(calls[1..], depth)
  }

  lemma AfterAbove(below: Stack, s: Stack, c: Call)
    requires c.Reset? || c.LDelim? ==> |s| > 1
    ensures After(below + s, c) == below + After(s, c)
  {
    hide Varint, Appended, Utf8;
    var t := below + s;
    assert t[..|t| - 1] == below + s[..|s| - 1];
    assert t + [[]] == below + (s + [[]]);
    if c.Reset? || c.LDelim? {
      var b, u := Below(t), Below(s);
      assert b == below + u && b[..|b| - 1] == below + u[..|u| - 1];
    }
  }

  /** Balanced calls see nothing of the stack below them. */
  lemma {:induction false} RunAbove(below: Stack, s: Stack, calls: seq<Call>)
    requires Balanced(calls, |s| - 1)
    ensures Run(below + s, calls) == below + Run(s, calls) && |Run(s, calls)| == 1
    decreases |calls|
  {
    hide After;
    if calls != [] {
      AfterAbove(below, s, calls[0]);
      Depths(s, calls[0]);
      RunAbove(below, After(s, calls[0]), calls[1..]);
    }
  }

  lemma Depths(s: Stack, c: Call)
    ensures |After(s, c)| == if c.Fork? then |s| + 1
                             else if c.Reset? || c.LDelim? then (if |s| > 1 then |s| - 1 else 1) else |s|
  {
    hide Varint, Appended, Utf8;
  }

  lemma {:induction false} RunAppend(stack: Stack, a: seq<Call>, b: seq<Call>)
    ensures Run(stack, a + b) == Run(Run(stack, a), b)
    decreases |a|
  {
    hide After;
    if a == [] {
      assert a + b == b;
    } else {
      assert (a + b)[1..] == a[1..] + b;
      RunAppend(After(stack, a[0]), a[1..], b);
    }
  }

  lemma RunOne(stack: Stack, c: Call)
    ensures Run(stack, [c]) == After(stack, c)
  {
    hide After;
    assert [c][1..] == [];
  }

  /** Whatever happens between a fork and its ldelim: the saved bytes, the length of what a
      writer of its own would have written, and those bytes. */
  lemma ForkThenLDelim(stack: Stack, calls: seq<Call>)
    requires Balanced(calls, 0)
    ensures var inner := Top(Run([[]], calls));
            Run(stack, [Fork] + calls + [LDelim]) == Extended(stack, Varint(ToUint32(|inner|)) + inner)
  {
    hide Varint, Run, Balanced;
    Between(stack, calls, LDelim);
    var s := Run([[]], calls);
    assert stack + s == stack + [Top(s)];
    assert (stack + [Top(s)])[..|stack|] == stack;
  }

  /** Whatever happens between a fork and its reset leaves no trace. */
  lemma ForkThenReset(stack: Stack, calls: seq<Call>)
    requires Balanced(calls, 0)
    ensures Run(stack, [Fork] + calls + [Reset]) == stack
  {
    hide Varint, Run, Balanced;
    Between(stack, calls, Reset);
    assert (stack + Run([[]], calls))[..|stack|] == stack;
  }

  lemma Between(stack: Stack, calls: seq<Call>, last: Call)
    requires Balanced(calls, 0)
    ensures |Run([[]], calls)| == 1
    ensures Run(stack, [Fork] + calls + [last]) == After(stack + Run([[]], calls), last)
  {
    hide After, Run, Balanced;
    RunAppend(stack, [Fork] + calls, [last]);
    RunAppend(stack, [Fork], calls);
    RunOne(stack, Fork);
    Forks(stack);
    RunAbove(stack, [[]], calls);
    RunOne(stack + Run([[]], calls), last);
  }

  lemma Forks(stack: Stack)
    ensures After(stack, Fork) == stack + [[]]
  {}

  // The Writer class.

  /** The operations that a call may relink. */
  lemma Tails(w: Writer)
    requires w.Valid()
    ensures w in w.Repr && w.tail in w.Repr && |w.stack| >= 1 && (w.states != null ==> w.states.tail in w.Repr)
    ensures |w.starts| == |w.stack|
  {
    w.ZeroIsZero();
    w.Shape();
    if w.states != null { SavedTail(w); }
  }

  lemma SavedTail(w: Writer)
    requires w.Valid() && w.states != null
    ensures w.states.tail in w.Repr
  {
    hide Bytes, Partition;
    assert FrameHolds(w.all, w.starts, w.stack, w.frames, |w.frames| - 1);
  }

  method Perform(w: Writer, c: Call)
    requires w.Valid() && Proper(c)
    modifies w, w.tail, if w.states != null then {w.states.tail} else {}
    ensures w.Valid() && (old(w.Fresh()) ==> w.Fresh()) && old(|w.stack|) >= 1 && |w.stack| >= 1
    ensures w.stack == After(old(w.stack), c)
    ensures fresh(w.Repr - old(w.Repr)) && old(w.Repr) <= w.Repr
  {
    hide Writer.Valid, Writer.Fresh, Varint, Utf8, Fixed32Bytes, Fixed64Bytes, Extended, ZigZag, Signed64;
    Tails(w);
    match c
    case UInt32(n) => w.UInt32(n);
    case Int32(n) => w.Int32(n);
    case SInt32(n) => w.SInt32(n);
    case Int64(n) => w.Int64(n);
    case SInt64(n) => w.SInt64(n);
    case Bool(b) => w.Bool(b);
    case Fixed32(n) => w.Fixed32(n);
    case Fixed64(n) => w.Fixed64(n);
    case Raw(bytes) => w.Raw(bytes);
    case BytesField(bytes) => w.BytesField(bytes);
    case StringField(s) => w.StringField(s);
    case Fork => w.Fork();
    case Reset => w.Reset();
    case LDelim => w.LDelim();
  }

  method PerformAll(calls: seq<Call>, zero: LongBits) returns (w: Writer)
    requires zero.Value() == 0 && forall c :: c in calls ==> Proper(c)
    ensures w.Valid() && w.Fresh() && fresh(w) && fresh(w.Repr - {zero}) && |w.stack| >= 1
    ensures w.stack == Run([[]], calls)
  {
    hide Writer.Valid, Writer.Fresh, After, Proper, Run;
    w := new Writer(zero);
    var i := 0;
    assert calls[0..] == calls;
    while i < |calls|
      invariant i <= |calls| && w.Valid() && w.Fresh() && fresh(w) && fresh(w.Repr - {zero}) && |w.stack| >= 1
      invariant Run(w.stack, calls[i..]) == Run([[]], calls)
    {
      Tails(w);
      RunStep(w.stack, calls, i);
      Perform(w, calls[i]);
      i := i + 1;
    }
    RunNone(w.stack);
    assert calls[i..] == [];
  }

  /** Any run of calls on a new writer, then finish: exactly the bytes at the top of the
      stack. */
  method WriteAll(calls: seq<Call>, zero: LongBits) returns (buf: array<byte>)
    requires zero.Value() == 0 && forall c :: c in calls ==> Proper(c)
    modifies zero
    ensures buf[..] == Top(Run([[]], calls))
  {
    hide Writer.Valid, Writer.Fresh, Writer.Values, Writer.Pending, Images, Join, Output, Leftover, Proper, Run;
    var w := PerformAll(calls, zero);
    InRepr(w);
    buf := w.Finish();
  }

  lemma RunStep(stack: Stack, calls: seq<Call>, i: nat)
    requires i < |calls|
    ensures Run(stack, calls[i..]) == Run(After(stack, calls[i]), calls[i + 1..])
  {
    hide After;
    assert calls[i..][1..] == calls[i + 1..];
  }

  lemma RunNone(stack: Stack)
    ensures Run(stack, []) == stack
  {}

  lemma InRepr(w: Writer)
    requires w.Valid()
    ensures w.Values() <= w.Repr
  {}

  // Finishing twice.

  /** The number 128 takes two bytes: the first finish writes them, the second does not. */
  method FinishesDiffer() returns (first: array<byte>, second: array<byte>)
    ensures first[..] == [128, 1] && second[..] != first[..]
  {
    hide Writer.Valid, Writer.Fresh, Writer.Values, Writer.Pending;
    var w := OneNumber(128);
    assert Varint(128) == [128, 1];
    OnePending(w);
    first, second := w.FinishTwice();
    assert w.Pending()[0].action.WriteVarint64? && w.Pending()[0].len == 2;
  }

  method OneNumber(n: nat) returns (w: Writer)
    requires n < TWO64
    ensures w.Valid() && w.Fresh() && fresh(w.Repr) && w.stack == [Varint(n)]
    ensures |w.all| == 2 && w.starts == [0] && w.all[1].action.WriteVarint64?
  {
    hide Writer.Valid, Writer.Fresh, Writer.Values, Varint;
    var zero := new LongBits(0, 0);
    w := new Writer(zero);
    Tails(w);
    w.Int64(n);
    assert n % TWO64 == n && [] + Varint(n) == Varint(n);
  }

  lemma OnePending(w: Writer)
    requires w.Valid() && w.Fresh() && |w.all| == 2 && w.starts == [0] && w.stack == [[128, 1]] && w.all[1].action.WriteVarint64?
    ensures w.Pending() == [w.all[1]] && w.all[1].len == 2
    ensures w.Values() <= w.Repr
  {
    hide Output, Varint;
    assert w.all[1..] == [w.all[1]];
    OneByOne(w.all);
  }

  lemma OneByOne(all: seq<Op>)
    requires |all| == 2
    ensures Bytes(all, 0, 2) == all[0].bytes + all[1].bytes
  {
    assert Bytes(all, 0, 1) == [] + all[0].bytes;
  }
}
