/** Message schemas and messages, and the bytes of one scalar. */
module Messages {
  import opened Bits
  import opened Buffers
  import opened Varints
  import opened Long
  import opened Utf8Codec
  import opened Readers
  import opened Writers

  datatype Scalar =
    | Double | Float | Int32 | UInt32 | SInt32 | FixedU32 | FixedS32
    | Int64 | UInt64 | SInt64 | FixedU64 | FixedS64 | Bool | String | Bytes

  datatype FieldType = Basic(scalar: Scalar) | Ref(index: nat)

  datatype Rule = Optional | Required | Repeated(packed: bool) | MapOf(key: Scalar)

  datatype Field = Field(id: nat, rule: Rule, ty: FieldType)

  datatype MessageType = MessageType(fields: seq<Field>, group: bool)

  /** All message types of a root; fields refer to them by index. */
  type Schema = seq<MessageType>

  /** Floats and doubles are their four or eight bytes. */
  datatype Value =
    | Num(n: int)
    | Flag(b: bool)
    | Text(s: units)
    | Data(bytes: seq<byte>)
    | Nested(m: Message)
    | Null

  datatype Slot = One(v: Value) | Many(vs: seq<Value>) | Dict(entries: seq<Pair>)

  /** A property of the object that a map field holds. */
  datatype Pair = Pair(key: Value, val: Value)

  /** The own properties of a message object, by field id. */
  datatype Message = Message(slots: map<nat, Slot>)

  function WireType(s: Scalar): (w: nat)
    ensures w in {0, 1, 2, 5}
  {
    match s
    case Double | FixedU64 | FixedS64 => 1
    case Float | FixedU32 | FixedS32 => 5
    case String | Bytes => 2
    case _ => 0
  }

  predicate Packable(s: Scalar) {
    WireType(s) != 2
  }

  /** What the field starts out as inside a map entry. */
  function Default(s: Scalar): (v: Value) {
    match s
    case Double => Data(Zeros(8))
    case Float => Data(Zeros(4))
    case Bool => Flag(false)
    case String => Text([])
    case Bytes => Data([])
    case _ => Num(0)
  }

  /** The values that a scalar type carries. */
  predicate InRange(s: Scalar, v: Value) {
    match s
    case Double => v.Data? && |v.bytes| == 8
    case Float => v.Data? && |v.bytes| == 4
    case Int32 | SInt32 | FixedS32 => v.Num? && -TWO32 / 2 <= v.n < TWO32 / 2
    case UInt32 | FixedU32 => v.Num? && 0 <= v.n < TWO32
    case Int64 | SInt64 | FixedS64 => v.Num? && -TWO64 / 2 <= v.n < TWO64 / 2
    case UInt64 | FixedU64 => v.Num? && 0 <= v.n < TWO64
    case Bool => v.Flag?
    case String => v.Text?
    case Bytes => v.Data? && |v.bytes| < TWO32
  }

  /** The bytes of a scalar without its tag. */
  function ScalarBytes(s: Scalar, v: Value): (r: seq<byte>) {
    if v.Num? then
      match s
      case Int32 | Int64 | UInt64 => Varint(v.n % TWO64)
      case UInt32 => Varint(ToUint32(v.n))
      case SInt32 | SInt64 => Varint(ZigZag(v.n))
      case FixedU32 | FixedS32 => Fixed32Bytes(ToUint32(v.n))
      case FixedU64 | FixedS64 => Fixed64Bytes(v.n % TWO64)
      case _ => []
    else if v.Flag? then [if v.b then 1 else 0]
    else if v.Text? then Varint(ToUint32(|Utf8(v.s)|)) + Utf8(v.s)
    else if v.Data? then
      if s.Bytes? then Varint(ToUint32(|v.bytes|)) + v.bytes else v.bytes
    else []
  }

  function Wrap<T, U>(r: Read<T>, f: T -> U): (s: Read<U>)
    ensures r.Ok? ==> s == Ok(f(r.val), r.pos)
    ensures r.Err? ==> s == Err(r.error)
  {
    match r
    case Ok(v, p) => Ok(f(v), p)
    case Err(e) => Err(e)
  }

  /** 64-bit varints. */
  predicate Wide(s: Scalar) {
    s.Int64? || s.UInt64? || s.SInt64?
  }

  /** The scalar of the given type that a reader finds at pos. */
  function ReadScalar(s: Scalar, buf: seq<byte>, pos: nat): (r: Read<Value>)
    ensures r.Ok? ==> pos < r.pos <= |buf| + 1
    ensures r.Ok? ==> (r.pos == |buf| + 1 <==> Wide(s) && pos + 3 == |buf| && EndsOpen(buf))
  {
    match s
    case Double => Wrap(Take(buf, pos, 8), b => Data(b))
    case Float => Wrap(Take(buf, pos, 4), b => Data(b))
    case Int32 => Wrap(ReadInt32(buf, pos), n => Num(n))
    case UInt32 => Wrap(ReadU32(buf, pos), n => Num(n))
    case SInt32 => Wrap(ReadSInt32(buf, pos), n => Num(n))
    case FixedU32 => Wrap(ReadFixed32(buf, pos), n => Num(n))
    case FixedS32 => Wrap(ReadFixed32(buf, pos), n => Num(ToInt32(n)))
    case Int64 => Wrap(ReadInt64(buf, pos, false), n => Num(n))
    case UInt64 => Wrap(ReadInt64(buf, pos, true), n => Num(n))
    case SInt64 => Wrap(ReadSInt64(buf, pos), n => Num(n))
    case FixedU64 => Wrap(ReadFixed64(buf, pos), n => Num(n))
    case FixedS64 => Wrap(ReadFixed64(buf, pos), n => Num(Signed64(n)))
    case Bool => Wrap(ReadBool(buf, pos), b => Flag(b))
    case String => Wrap(ReadString(buf, pos), u => Text(u))
    case Bytes => Wrap(ReadBytes(buf, pos), b => Data(b))
  }

  lemma FixedInverse(n: u32)
    ensures Fixed32(Fixed32Bytes(n)) == n
  {
    BytesJoin(n);
  }

  lemma BytesJoin(n: nat)
    ensures n % 0x100 + 0x100 * (n / 0x100 % 0x100) + 0x1_0000 * (n / 0x1_0000 % 0x100) + 0x100_0000 * (n / 0x100_0000) == n
  {
    var a := n / 0x100;
    var b := a / 0x100;
    assert n / 0x1_0000 == b && n / 0x100_0000 == b / 0x100;
    assert n == 0x100 * a + n % 0x100;
    assert a == 0x100 * b + a % 0x100;
  }

  lemma Fixed64Inverse(n: nat)
    requires n < TWO64
    ensures Fixed64(Fixed64Bytes(n)) == n
  {
    var s := Fixed64Bytes(n);
    hide Fixed32Bytes, Fixed32;
    assert s[..4] == Fixed32Bytes(n % TWO32) && s[4..] == Fixed32Bytes(n / TWO32);
    FixedInverse(n % TWO32);
    FixedInverse(n / TWO32);
  }

  lemma ShortVarint(n: nat)
    requires n < TWO32
    ensures |Varint(n)| <= 5
  {
    SmallLengths(n);
  }

  /** Non-negative int32 values take at most five bytes and negative ones all ten, so
      that the reader's skip lands behind them. */
  lemma Int32RoundTrip(n: int, buf: seq<byte>, pos: nat)
    requires -TWO32 / 2 <= n < TWO32 / 2 && Holds(buf, pos, Varint(n % TWO64))
    ensures ReadInt32(buf, pos) == Ok(n, pos + |Varint(n % TWO64)|)
  {
    hide Varint, ReadU32;
    if n < 0 { TenByteLength(n % TWO64); } else { ShortVarint(n); }
    ReadU32OfVarint(n % TWO64, buf, pos);
    assert n % TWO64 % TWO32 == n % TWO32;
  }

  lemma SInt32RoundTrip(n: int, buf: seq<byte>, pos: nat)
    requires -TWO32 / 2 <= n < TWO32 / 2 && Holds(buf, pos, Varint(ZigZag(n)))
    ensures ReadSInt32(buf, pos) == Ok(n, pos + |Varint(ZigZag(n))|)
  {
    hide Varint, ReadU32, UnZigZag;
    ShortVarint(ZigZag(n));
    ReadU32OfVarint(ZigZag(n), buf, pos);
    ZigZagInverse(n);
  }

  lemma UInt32RoundTrip(n: u32, buf: seq<byte>, pos: nat)
    requires Holds(buf, pos, Varint(n))
    ensures ReadU32(buf, pos) == Ok(n, pos + |Varint(n)|)
  {
    hide Varint, ReadU32;
    ShortVarint(n);
    ReadU32OfVarint(n, buf, pos);
  }

  lemma Int64RoundTrip(n: int, buf: seq<byte>, pos: nat, unsigned: bool)
    requires if unsigned then 0 <= n < TWO64 else -TWO64 / 2 <= n < TWO64 / 2
    requires Holds(buf, pos, Varint(n % TWO64))
    ensures ReadInt64(buf, pos, unsigned) == Ok(n, pos + |Varint(n % TWO64)|)
  {
    hide Varint, ReadU64;
    ReadU64OfVarint(n % TWO64, buf, pos);
    if !unsigned { NumberRoundTrip(n); }
  }

  lemma SInt64RoundTrip(n: int, buf: seq<byte>, pos: nat)
    requires -TWO64 / 2 <= n < TWO64 / 2 && Holds(buf, pos, Varint(ZigZag(n)))
    ensures ReadSInt64(buf, pos) == Ok(n, pos + |Varint(ZigZag(n))|)
  {
    hide Varint, ReadU64;
    NumberRoundTrip(n);
    ReadU64OfVarint(ZigZag(n), buf, pos);
  }

  lemma FixedRoundTrip(n: int, buf: seq<byte>, pos: nat)
    ensures Holds(buf, pos, Fixed32Bytes(ToUint32(n))) ==> ReadFixed32(buf, pos) == Ok(ToUint32(n), pos + 4)
    ensures Holds(buf, pos, Fixed64Bytes(n % TWO64)) ==> ReadFixed64(buf, pos) == Ok(n % TWO64, pos + 8)
  {
    hide Fixed32Bytes, Fixed32, Fixed64Bytes, Fixed64;
    FixedInverse(ToUint32(n));
    Fixed64Inverse(n % TWO64);
  }

  lemma BytesRoundTrip(bytes: seq<byte>, buf: seq<byte>, pos: nat)
    requires |bytes| < TWO32 && Holds(buf, pos, Varint(|bytes|) + bytes)
    ensures ReadBytes(buf, pos) == Ok(bytes, pos + |Varint(|bytes|)| + |bytes|)
  {
    hide Varint, ReadU32;
    HoldsSplit(buf, pos, Varint(|bytes|), bytes);
    UInt32RoundTrip(|bytes|, buf, pos);
  }

  /** A string comes back as what reading its UTF-8 form gives, anywhere in a buffer. */
  lemma StringRoundTrip(s: units, buf: seq<byte>, pos: nat)
    requires |Utf8(s)| < TWO32 && Holds(buf, pos, Varint(|Utf8(s)|) + Utf8(s))
    ensures ReadString(buf, pos) == Ok(Reread(s), pos + |Varint(|Utf8(s)|)| + |Utf8(s)|)
    ensures Reread(s) == s <==> ReadsBack(s)
  {
    hide Varint, Utf8, ReadBytes, ReadUtf8, ReadsBack;
    BytesRoundTrip(Utf8(s), buf, pos);
    RereadIs(s);
  }

  /** A scalar as it comes back: a string may not come back as it was. */
  function AsRead(v: Value): (r: Value)
    ensures r.Text? == v.Text? && (!v.Text? ==> r == v)
  {
    if v.Text? then Text(Reread(v.s)) else v
  }

  /** Every value that a scalar type carries is read back from its bytes, anywhere. */
  lemma ScalarRoundTrip(s: Scalar, v: Value, buf: seq<byte>, pos: nat)
    requires InRange(s, v) && |ScalarBytes(s, v)| < TWO32 && Holds(buf, pos, ScalarBytes(s, v))
    ensures ReadScalar(s, buf, pos) == Ok(AsRead(v), pos + |ScalarBytes(s, v)|)
  {
    hide Varint, Utf8, Fixed32Bytes, Fixed64Bytes, ReadInt32, ReadU32, ReadSInt32, ReadFixed32, ReadFixed64;
    hide ReadInt64, ReadSInt64, ReadString, ReadBytes, ReadsBack, Reread, ZigZag, Holds, EndsOpen, Wide;
    match s
    case Double | Float => TakeHeld(v.bytes, buf, pos);
    case Int32 => Int32RoundTrip(v.n, buf, pos);
    case UInt32 => UInt32RoundTrip(v.n, buf, pos);
    case SInt32 => SInt32RoundTrip(v.n, buf, pos);
    case FixedU32 | FixedS32 | FixedU64 | FixedS64 => FixedRoundTrip(v.n, buf, pos);
    case Int64 => Int64RoundTrip(v.n, buf, pos, false);
    case UInt64 => Int64RoundTrip(v.n, buf, pos, true);
    case SInt64 => SInt64RoundTrip(v.n, buf, pos);
    case Bool => BoolRoundTrip(v.b, buf, pos);
    case String => StringRoundTrip(v.s, buf, pos);
    case Bytes => BytesRoundTrip(v.bytes, buf, pos);
  }

  lemma TakeHeld(b: seq<byte>, buf: seq<byte>, pos: nat)
    requires Holds(buf, pos, b)
    ensures Take(buf, pos, |b|) == Ok(b, pos + |b|)
  {}

  lemma BoolRoundTrip(b: bool, buf: seq<byte>, pos: nat)
    requires Holds(buf, pos, [if b then 1 else 0])
    ensures ReadBool(buf, pos) == Ok(b, pos + 1)
  {
    var n := if b then 1 else 0;
    assert Varint(n) == [n];
    UInt32RoundTrip(n, buf, pos);
  }
}
