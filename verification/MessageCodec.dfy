/** The generated encoder over a Writer and the generated decoder over a Reader. */
module MessageCodec {
  import opened Bits
  import opened Buffers
  import opened Varints
  import opened Long
  import opened Utf8Codec
  import opened Readers
  import opened Writers
  import opened Messages
  import opened Wire
  import opened Decoding
  import opened DecodingTheorems
  import opened Encoding
  import opened EncodingTheorems

  /** Everything that encoding with a writer leaves as it was, or adds. */
  twostate predicate Wrote(w: Writer, bytes: seq<byte>)
    reads w, w.Repr
  {
    && old(w.Valid()) && w.Valid() && (old(w.Fresh()) ==> w.Fresh())
    && old(|w.stack|) >= 1 && w.stack == Extended(old(w.stack), bytes)
    && w.frames == old(w.frames) && (fresh(w.tail) || w.tail == old(w.tail))
    && fresh(w.Repr - old(w.Repr)) && old(w.Repr) <= w.Repr
  }

  /** `w.int32(v)`, `w.string(v)` and so on, by the scalar type. */
  method EncodeScalar(s: Scalar, v: Value, w: Writer)
    requires w.Valid() && InRange(s, v)
    modifies w, w.tail
    ensures Wrote(w, ScalarBytes(s, v))
  {
    hide Writer.Valid, Writer.Fresh, Varint, Utf8, Fixed32Bytes, Fixed64Bytes, Extended, ReadsBack, ZigZag;
    w.ZeroIsZero();
    match s
    case Double | Float => w.Raw(v.bytes);
    case Int32 => w.Int32(v.n);
    case UInt32 => w.UInt32(v.n);
    case SInt32 => w.SInt32(v.n);
    case FixedU32 | FixedS32 => w.Fixed32(v.n);
    case Int64 | UInt64 => w.Int64(v.n);
    case SInt64 => NumberRoundTrip(v.n); w.SInt64(v.n);
    case FixedU64 | FixedS64 => w.Fixed64(v.n);
    case Bool => w.Bool(v.b);
    case String => w.StringField(v.s);
    case Bytes => w.BytesField(v.bytes);
  }

  lemma TagFits(id: nat, wireType: nat)
    ensures Varint(ToUint32(id * 8 + wireType)) == Tag(id, wireType)
  {
    hide Varint;
  }

  /** `types[i].encode(m, w.fork()).ldelim()` */
  method EncodeDelimited(S: Schema, j: nat, m: Message, w: Writer)
    requires w.Valid() && SchemaOk(S) && Conforms(S, j, m)
    modifies w, w.tail
    ensures Wrote(w, Delimited(RecordsBytes(S, Tree(S, j, m))))
    decreases m, 3, 0
  {
    hide Writer.Valid, Writer.Fresh, Varint, RecordsBytes, Tree, Conforms, SchemaOk;
    ghost var below := w.stack;
    ghost var b := RecordsBytes(S, Tree(S, j, m));
    w.ZeroIsZero();
    w.Fork();
    EncodeMessage(S, j, m, w);
    w.Shape();
    assert w.stack == below + [b] by { assert [] + b == b; }
    w.LDelim();
    assert (below + [b])[..|below|] == below;
  }

  /** One value of a field behind its tag. */
  method EncodeValue(S: Schema, f: Field, v: Value, w: Writer)
    requires w.Valid() && SchemaOk(S) && ValueOk(S, f.ty, v)
    modifies w, w.tail
    ensures Wrote(w, RecordBytes(S, ValueRecord(S, f, v)))
    decreases v
  {
    hide Writer.Valid, Writer.Fresh, Varint, RecordsBytes, Tree, Conforms, SchemaOk, Delimited, ScalarBytes, InRange, Extended, Tag;
    ghost var below := w.stack;
    w.ZeroIsZero();
    if f.ty.Basic? {
      var t := WireType(f.ty.scalar);
      TagFits(f.id, t);
      w.UInt32(f.id * 8 + t);
      EncodeScalar(f.ty.scalar, v, w);
      ExtendedTwice(below, Tag(f.id, t), ScalarBytes(f.ty.scalar, v));
    } else if IsGroup(S, f.ty) {
      ghost var b := RecordsBytes(S, Tree(S, f.ty.index, v.m));
      TagFits(f.id, 3);
      TagFits(f.id, 4);
      w.UInt32(f.id * 8 + 3);
      EncodeMessage(S, f.ty.index, v.m, w);
      w.ZeroIsZero();
      w.UInt32(f.id * 8 + 4);
      ExtendedTwice(below, Tag(f.id, 3), b);
      ExtendedTwice(below, Tag(f.id, 3) + b, Tag(f.id, 4));
    } else {
      TagFits(f.id, 2);
      w.UInt32(f.id * 8 + 2);
      EncodeDelimited(S, f.ty.index, v.m, w);
      ExtendedTwice(below, Tag(f.id, 2), Delimited(RecordsBytes(S, Tree(S, f.ty.index, v.m))));
    }
  }

  /** Field after field in the order of their ids. */
  method EncodeMessage(S: Schema, j: nat, m: Message, w: Writer)
    requires w.Valid() && SchemaOk(S) && Conforms(S, j, m)
    modifies w, w.tail
    ensures Wrote(w, RecordsBytes(S, Tree(S, j, m)))
    decreases m, 2, 0
  {
    hide Writer.Valid, Writer.Fresh, RecordsBytes, FieldsTree, FieldTree, SortById, FieldOk, Extended, FieldById, Ascending;
    var fields := SortById(S[j].fields);
    SortAscends(S[j].fields);
    ghost var below, done := w.stack, [];
    w.ZeroIsZero();
    NothingWritten(below);
    var i := 0;
    while i < |fields|
      invariant i <= |fields| && Wrote(w, done)
      invariant forall f :: f in fields ==> f in S[j].fields
      invariant done + RecordsBytes(S, FieldsTree(S, fields[i..], m)) == RecordsBytes(S, Tree(S, j, m))
    {
      EncodeField(S, fields[i], m, w);
      ghost var b := RecordsBytes(S, FieldTree(S, fields[i], m));
      ExtendedTwice(below, done, b);
      NextField(S, fields, i, m);
      done := done + b;
      i := i + 1;
    }
    NoField(S, fields[i..], m);
    assert done + [] == done;
  }

  lemma NothingWritten(stack: seq<seq<byte>>)
    requires |stack| >= 1
    ensures Extended(stack, []) == stack
  {
    assert stack[|stack| - 1] + [] == stack[|stack| - 1];
    assert stack == stack[..|stack| - 1] + [stack[|stack| - 1]];
  }

  lemma NextField(S: Schema, fields: seq<Field>, i: nat, m: Message)
    requires i < |fields|
    ensures RecordsBytes(S, FieldsTree(S, fields[i..], m))
            == RecordsBytes(S, FieldTree(S, fields[i], m)) + RecordsBytes(S, FieldsTree(S, fields[i + 1..], m))
  {
    hide RecordsBytes, FieldTree;
    assert fields[i..][1..] == fields[i + 1..];
    BytesAppend(S, FieldTree(S, fields[i], m), FieldsTree(S, fields[i + 1..], m));
  }

  lemma NoField(S: Schema, fields: seq<Field>, m: Message)
    requires fields == []
    ensures RecordsBytes(S, FieldsTree(S, fields, m)) == []
  {
    assert FieldsTree(S, fields, m) == [];
  }

  /** `if (m.f != null && m.hasOwnProperty("f"))` and what follows, by the kind of field. */
  method EncodeField(S: Schema, f: Field, m: Message, w: Writer)
    requires w.Valid() && SchemaOk(S) && FieldOk(S, f, m)
    modifies w, w.tail
    ensures Wrote(w, RecordsBytes(S, FieldTree(S, f, m)))
    decreases m, 0, 0
  {
    hide Writer.Valid, Writer.Fresh, SchemaOk, RecordBytes, ValueOk, ValuesOk, EntriesOk, SlotTree, DistinctKeys, Extended;
    w.ZeroIsZero();
    NothingWritten(w.stack);
    if f.id in m.slots {
      EncodeSlot(S, f, m.slots[f.id], w);
    }
  }

  method EncodeSlot(S: Schema, f: Field, slot: Slot, w: Writer)
    requires w.Valid() && SchemaOk(S) && SlotOk(S, f, slot)
    modifies w, w.tail
    ensures Wrote(w, RecordsBytes(S, SlotTree(S, f, slot)))
    decreases slot
  {
    hide Writer.Valid, Writer.Fresh, SchemaOk, RecordBytes, RecordsBytes, ValueOk, ValuesOk, EntriesOk, DistinctKeys, Extended,
         ValueRecord, ValueRecords, EntryRecords, AllInRange;
    if f.rule.MapOf? {
      EncodeEntries(S, f, slot.entries, w);
    } else if f.rule.Repeated? {
      w.ZeroIsZero();
      NothingWritten(w.stack);
      NoRecord(S, f);
      if |slot.vs| > 0 {
        if f.rule.packed && f.ty.Basic? && Packable(f.ty.scalar) {
          ReadScalars(S, f.ty, slot.vs);
          EncodePacked(S, f, slot.vs, w);
          OneRecord(S, Packed(f, slot.vs));
        } else {
          EncodeValues(S, f, slot.vs, w);
        }
      }
    } else {
      EncodeValue(S, f, slot.v, w);
      OneRecord(S, ValueRecord(S, f, slot.v));
    }
  }

  lemma OneRecord(S: Schema, rec: Record)
    ensures RecordsBytes(S, [rec]) == RecordBytes(S, rec)
  {
    hide RecordBytes;
    assert [rec][1..] == [];
    assert RecordsBytes(S, [rec][1..]) == [];
  }

  lemma NoRecord(S: Schema, f: Field)
    ensures RecordsBytes(S, []) == [] && ValueRecords(S, f, []) == [] && EntryRecords(S, f, []) == []
  {}

  /** All values in one length-delimited run. */
  method EncodePacked(S: Schema, f: Field, vs: seq<Value>, w: Writer)
    requires w.Valid() && f.ty.Basic? && AllInRange(f.ty.scalar, vs)
    modifies w, w.tail
    ensures Wrote(w, RecordBytes(S, Packed(f, vs)))
  {
    hide Writer.Valid, Writer.Fresh, Varint, ScalarsBytes, Delimited, Tag;
    ghost var below, b := w.stack, ScalarsBytes(f.ty.scalar, vs);
    w.ZeroIsZero();
    TagFits(f.id, 2);
    w.UInt32(f.id * 8 + 2);
    EncodeRun(f.ty.scalar, vs, w);
    ExtendedTwice(below, Tag(f.id, 2), Delimited(b));
  }

  /** The values of a packed run, one behind the other. */
  method EncodeScalars(s: Scalar, vs: seq<Value>, w: Writer)
    requires w.Valid() && AllInRange(s, vs)
    modifies w, w.tail
    ensures Wrote(w, ScalarsBytes(s, vs))
  {
    hide Writer.Valid, Writer.Fresh, Varint, InRange, ScalarBytes;
    ghost var base, done := w.stack, [];
    w.ZeroIsZero();
    NothingWritten(base);
    var i := 0;
    while i < |vs|
      invariant i <= |vs| && Wrote(w, done) && AllInRange(s, vs[i..])
      invariant done + ScalarsBytes(s, vs[i..]) == ScalarsBytes(s, vs)
    {
      EncodeScalar(s, vs[i], w);
      ExtendedTwice(base, done, ScalarBytes(s, vs[i]));
      assert vs[i..][1..] == vs[i + 1..];
      done := done + ScalarBytes(s, vs[i]);
      i := i + 1;
    }
    assert vs[i..] == [] && done + [] == done;
  }

  method EncodeRun(s: Scalar, vs: seq<Value>, w: Writer)
    requires w.Valid() && AllInRange(s, vs)
    modifies w, w.tail
    ensures Wrote(w, Delimited(ScalarsBytes(s, vs)))
  {
    hide Writer.Valid, Writer.Fresh, Varint, InRange, ScalarsBytes;
    ghost var below := w.stack;
    w.ZeroIsZero();
    w.Fork();
    EncodeScalars(s, vs, w);
    w.Shape();
    assert [] + ScalarsBytes(s, vs) == ScalarsBytes(s, vs);
    assert w.stack == below + [ScalarsBytes(s, vs)];
    w.LDelim();
    assert (below + [ScalarsBytes(s, vs)])[..|below|] == below;
  }

  method EncodeValues(S: Schema, f: Field, vs: seq<Value>, w: Writer)
    requires w.Valid() && SchemaOk(S) && ValuesOk(S, f.ty, vs)
    modifies w, w.tail
    ensures Wrote(w, RecordsBytes(S, ValueRecords(S, f, vs)))
    decreases vs
  {
    hide Writer.Valid, Writer.Fresh, SchemaOk, RecordBytes, ValueOk, ValueRecord, Extended;
    ghost var below, done := w.stack, [];
    w.ZeroIsZero();
    NothingWritten(below);
    var i := 0;
    while i < |vs|
      invariant i <= |vs| && Wrote(w, done) && ValuesOk(S, f.ty, vs[i..])
      invariant done + RecordsBytes(S, ValueRecords(S, f, vs[i..])) == RecordsBytes(S, ValueRecords(S, f, vs))
    {
      EncodeValue(S, f, vs[i], w);
      ghost var b := RecordBytes(S, ValueRecord(S, f, vs[i]));
      ExtendedTwice(below, done, b);
      NextValue(S, f, vs, i);
      done := done + b;
      i := i + 1;
    }
    NoRecord(S, f);
    assert vs[i..] == [] && done + [] == done;
  }

  lemma NextValue(S: Schema, f: Field, vs: seq<Value>, i: nat)
    requires i < |vs|
    ensures RecordsBytes(S, ValueRecords(S, f, vs[i..]))
            == RecordBytes(S, ValueRecord(S, f, vs[i])) + RecordsBytes(S, ValueRecords(S, f, vs[i + 1..]))
  {
    hide RecordBytes, ValueRecord;
    assert vs[i..][1..] == vs[i + 1..];
    BytesFirst(S, ValueRecord(S, f, vs[i]), ValueRecords(S, f, vs[i + 1..]));
  }

  /** `for (var ks = Object.keys(m.f), i = 0; i < ks.length; ++i)` */
  method EncodeEntries(S: Schema, f: Field, es: seq<Pair>, w: Writer)
    requires w.Valid() && SchemaOk(S) && EntriesOk(S, f, es)
    modifies w, w.tail
    ensures Wrote(w, RecordsBytes(S, EntryRecords(S, f, es)))
    decreases es
  {
    hide Writer.Valid, Writer.Fresh, SchemaOk, RecordBytes, EntryOk, Encoding.EntryRecord, Extended;
    ghost var below, done := w.stack, [];
    w.ZeroIsZero();
    NothingWritten(below);
    var i := 0;
    while i < |es|
      invariant i <= |es| && Wrote(w, done) && EntriesOk(S, f, es[i..])
      invariant done + RecordsBytes(S, EntryRecords(S, f, es[i..])) == RecordsBytes(S, EntryRecords(S, f, es))
    {
      EncodeEntry(S, f, es[i], w);
      ghost var b := RecordBytes(S, Encoding.EntryRecord(S, f, es[i]));
      ExtendedTwice(below, done, b);
      NextEntry(S, f, es, i);
      done := done + b;
      i := i + 1;
    }
    NoRecord(S, f);
    assert es[i..] == [] && done + [] == done;
  }

  lemma NextEntry(S: Schema, f: Field, es: seq<Pair>, i: nat)
    requires i < |es|
    ensures RecordsBytes(S, EntryRecords(S, f, es[i..]))
            == RecordBytes(S, Encoding.EntryRecord(S, f, es[i])) + RecordsBytes(S, EntryRecords(S, f, es[i + 1..]))
  {
    hide RecordBytes, Encoding.EntryRecord;
    assert es[i..][1..] == es[i + 1..];
    BytesFirst(S, Encoding.EntryRecord(S, f, es[i]), EntryRecords(S, f, es[i + 1..]));
  }

  /** A map entry: the key under number 1, the value under number 2. */
  method EncodeEntry(S: Schema, f: Field, e: Pair, w: Writer)
    requires w.Valid() && SchemaOk(S) && EntryOk(S, f, e)
    modifies w, w.tail
    ensures Wrote(w, RecordBytes(S, Encoding.EntryRecord(S, f, e)))
    decreases e
  {
    hide Writer.Valid, Writer.Fresh, SchemaOk, Varint, ItemsBytes, InRange, ValueOk, WrittenKey, Delimited, Tag, Extended, EntryItem;
    ghost var below, items := w.stack, [KeyItem(WrittenKey(e.key)), EntryItem(S, f, e.val)];
    w.ZeroIsZero();
    TagFits(f.id, 2);
    w.UInt32(f.id * 8 + 2);
    EncodeItems(S, f, e, w);
    ExtendedTwice(below, Tag(f.id, 2), Delimited(ItemsBytes(S, f, items)));
  }

  method EncodeItems(S: Schema, f: Field, e: Pair, w: Writer)
    requires w.Valid() && SchemaOk(S) && EntryOk(S, f, e)
    modifies w, w.tail
    ensures Wrote(w, Delimited(ItemsBytes(S, f, [KeyItem(WrittenKey(e.key)), EntryItem(S, f, e.val)])))
    decreases e, 0
  {
    hide Writer.Valid, Writer.Fresh, SchemaOk, Varint, ItemsBytes, ItemBytes, InRange, ValueOk, WrittenKey, Tag, EntryItem, ScalarBytes;
    ghost var below := w.stack;
    ghost var k, v := KeyItem(WrittenKey(e.key)), EntryItem(S, f, e.val);
    ghost var a, b := ItemBytes(S, f, k), ItemBytes(S, f, v);
    w.ZeroIsZero();
    w.Fork();
    ghost var base := w.stack;
    EncodeKey(S, f, e.key, w);
    EncodeEntryValue(S, f, e.val, w);
    TwoItems(S, f, k, v);
    w.Shape();
    assert w.stack == below + [a + b] by { assert [] + a + b == a + b; }
    w.LDelim();
    assert (below + [a + b])[..|below|] == below;
  }

  lemma TwoItems(S: Schema, f: Field, a: Item, b: Item)
    ensures ItemsBytes(S, f, [a, b]) == ItemBytes(S, f, a) + ItemBytes(S, f, b)
  {
    hide ItemBytes;
    ItemBytesFirst(S, f, b, []);
    assert [b] + [] == [b];
    assert ItemsBytes(S, f, []) == [];
    ItemBytesFirst(S, f, a, [b]);
    assert [a] + [b] == [a, b];
  }

  method EncodeKey(S: Schema, f: Field, k: Value, w: Writer)
    requires w.Valid() && InRange(KeyType(f), k)
    modifies w, w.tail
    ensures Wrote(w, ItemBytes(S, f, KeyItem(WrittenKey(k))))
  {
    hide Writer.Valid, Writer.Fresh, Varint, ScalarBytes, Tag, Extended, ReadsBack;
    ghost var below := w.stack;
    w.ZeroIsZero();
    var s := KeyType(f);
    TagFits(1, WireType(s));
    w.UInt32(8 + WireType(s));
    EncodeScalar(s, WrittenKey(k), w);
    ExtendedTwice(below, Tag(1, WireType(s)), ScalarBytes(s, WrittenKey(k)));
  }

  method EncodeEntryValue(S: Schema, f: Field, v: Value, w: Writer)
    requires w.Valid() && SchemaOk(S) && ValueOk(S, f.ty, v)
    modifies w, w.tail
    ensures Wrote(w, ItemBytes(S, f, EntryItem(S, f, v)))
    decreases v
  {
    hide Writer.Valid, Writer.Fresh, SchemaOk, Varint, ScalarBytes, Tag, Extended, InRange, Delimited, RecordsBytes, Conforms, Tree;
    ghost var below := w.stack;
    w.ZeroIsZero();
    if f.ty.Basic? {
      var s := f.ty.scalar;
      TagFits(2, WireType(s));
      w.UInt32(16 + WireType(s));
      EncodeScalar(s, v, w);
      ExtendedTwice(below, Tag(2, WireType(s)), ScalarBytes(s, v));
    } else {
      TagFits(2, 2);
      w.UInt32(18);
      EncodeDelimited(S, f.ty.index, v.m, w);
      ExtendedTwice(below, Tag(2, 2), Delimited(RecordsBytes(S, Tree(S, f.ty.index, v.m))));
    }
  }

  // The decoder.

  method DecodeScalar(s: Scalar, r: Reader) returns (o: Outcome<Value>)
    requires r.Valid()
    modifies r
    ensures r.Valid() && Did(o, ReadScalar(s, r.buf, old(r.pos)), r.pos)
  {
    hide ReadInt32, ReadU32, ReadSInt32, ReadFixed32, ReadFixed64, ReadInt64, ReadSInt64, ReadString, ReadBytes, Take, ReadBool;
    match s
    case Double => var b := r.Raw(8); return Map(b, x => Data(x));
    case Float => var b := r.Raw(4); return Map(b, x => Data(x));
    case Int32 => var n := r.Int32(); return Map(n, x => Num(x));
    case UInt32 => var n := r.UInt32(); return Map(n, x => Num(x));
    case SInt32 => var n := r.SInt32(); return Map(n, x => Num(x));
    case FixedU32 => var n := r.UFixed32(); return Map(n, x => Num(x));
    case FixedS32 => var n := r.UFixed32(); return Map(n, x => Num(ToInt32(x)));
    case Int64 => var n := r.Int64(false); return Map(n, x => Num(x));
    case UInt64 => var n := r.Int64(true); return Map(n, x => Num(x));
    case SInt64 => var n := r.SInt64(); return Map(n, x => Num(x));
    case FixedU64 => o := Fixed64Number(r, true);
    case FixedS64 => o := Fixed64Number(r, false);
    case Bool => var b := r.Bool(); return Map(b, x => Flag(x));
    case String => var u := r.String(); return Map(u, x => Text(x));
    case Bytes => var b := r.Bytes(); return Map(b, x => Data(x));
  }

  function Map<T, U>(o: Outcome<T>, f: T -> U): (p: Outcome<U>) {
    match o
    case Return(v) => Return(f(v))
    case Throw(e) => Throw(e)
  }

  method Fixed64Number(r: Reader, unsigned: bool) returns (o: Outcome<Value>)
    requires r.Valid()
    modifies r
    ensures r.Valid() && Did(o, ReadScalar(if unsigned then FixedU64 else FixedS64, r.buf, old(r.pos)), r.pos)
  {
    var b := r.UFixed64();
    match b
    case Throw(e) => return Throw(e);
    case Return(bits) =>
      var n := bits.ToNumber(unsigned);
      return Return(Num(n));
  }

  /** `types[j].decode(r, c - r.pos)` */
  method DecodeWith(S: Schema, j: nat, r: Reader, c: nat) returns (o: Outcome<Message>)
    requires r.Valid() && Closed(S) && j < |S| && r.pos <= |r.buf| + 1
    modifies r
    ensures r.Valid() && Did(o, DecodeMessage(S, j, r.buf, old(r.pos), c), r.pos)
    decreases |r.buf| + 2 - r.pos, 1
  {
    hide ReadU32, DecodeField, FirstMissing;
    var slots: Slots := map[];
    while r.pos < c
      invariant r.Valid() && old(r.pos) <= r.pos <= |r.buf| + 1
      invariant DecodeLoop(S, j, r.buf, r.pos, c, slots) == DecodeLoop(S, j, r.buf, old(r.pos), c, map[])
      decreases |r.buf| + 2 - r.pos
    {
      var t := r.UInt32();
      if t.Throw? { return Throw(t.error); }
      if S[j].group && t.value % 8 == 4 { break; }
      var next := DecodeInto(S, j, r, t.value, slots);
      if next.Throw? { return Throw(next.error); }
      slots := next.value;
    }
    var missing := FirstMissing(S[j].fields, slots);
    if missing != [] { return Throw(MissingRequired(missing[0])); }
    return Return(Message(slots));
  }

  /** One turn of the loop behind the tag t: the switch over the field number. */
  method DecodeInto(S: Schema, j: nat, r: Reader, t: nat, slots: Slots) returns (o: Outcome<Slots>)
    requires r.Valid() && Closed(S) && j < |S| && r.pos <= |r.buf|
    modifies r
    ensures r.Valid() && Did(o, DecodeField(S, j, r.buf, old(r.pos), t, slots), r.pos)
    decreases |r.buf| + 2 - r.pos, 3
  {
    hide ReadU32, SkipType, EntryLoop, PackedLoop, DecodeValue, FieldById, PutEntry;
    match FieldById(S[j].fields, t / 8)
    case NotFound =>
      var skipped := r.SkipField(t % 8);
      if skipped.Throw? { return Throw(skipped.error); }
      return Return(slots);
    case Found(f) =>
      if f.rule.MapOf? {
        var n := r.UInt32();
        if n.Throw? { return Throw(n.error); }
        var kv := DecodeEntry(S, f, r, r.pos + n.value);
        if kv.Throw? { return Throw(kv.error); }
        return Return(slots[f.id := Dict(PutEntry(Entries(slots, f.id), kv.value.key, kv.value.val))]);
      } else if f.rule.Repeated? && f.ty.Basic? && Packable(f.ty.scalar) && t % 8 == 2 {
        var n := r.UInt32();
        if n.Throw? { return Throw(n.error); }
        var vs := DecodeRun(f.ty.scalar, r, r.pos + n.value, Elements(slots, f.id));
        if vs.Throw? { return Throw(vs.error); }
        return Return(slots[f.id := Many(vs.value)]);
      } else {
        var v := DecodeOne(S, f.ty, r, IsGroup(S, f.ty));
        if v.Throw? { return Throw(v.error); }
        return Return(AddValue(slots, f, v.value));
      }
  }

  method DecodeOne(S: Schema, ty: FieldType, r: Reader, group: bool) returns (o: Outcome<Value>)
    requires r.Valid() && Closed(S) && (ty.Ref? ==> ty.index < |S|) && r.pos <= |r.buf| + 1
    modifies r
    ensures r.Valid() && Did(o, DecodeValue(S, ty, r.buf, old(r.pos), group), r.pos)
    decreases |r.buf| + 2 - r.pos, 2
  {
    hide ReadU32, ReadScalar, DecodeMessage;
    if ty.Basic? {
      o := DecodeScalar(ty.scalar, r);
    } else {
      var c := r.len;
      if !group {
        var n := r.UInt32();
        if n.Throw? { return Throw(n.error); }
        c := r.pos + n.value;
      }
      var m := DecodeWith(S, ty.index, r, c);
      if m.Throw? { return Throw(m.error); }
      return Return(Nested(m.value));
    }
  }

  /** `while (r.pos < c2) m.f.push(r.int32())` */
  method DecodeRun(s: Scalar, r: Reader, c: nat, before: seq<Value>) returns (o: Outcome<seq<Value>>)
    requires r.Valid() && r.pos <= |r.buf| + 1
    modifies r
    ensures r.Valid() && Did(o, PackedLoop(s, r.buf, old(r.pos), c, before), r.pos)
  {
    hide ReadScalar;
    var vs := before;
    while r.pos < c
      invariant r.Valid() && old(r.pos) <= r.pos <= |r.buf| + 1
      invariant PackedLoop(s, r.buf, r.pos, c, vs) == PackedLoop(s, r.buf, old(r.pos), c, before)
      decreases |r.buf| + 2 - r.pos
    {
      var v := DecodeScalar(s, r);
      if v.Throw? { return Throw(v.error); }
      vs := vs + [v.value];
    }
    return Return(vs);
  }

  /** The key and the value of a map entry, starting from their defaults. */
  method DecodeEntry(S: Schema, f: Field, r: Reader, c: nat) returns (o: Outcome<Pair>)
    requires r.Valid() && Closed(S) && (f.ty.Ref? ==> f.ty.index < |S|) && r.pos <= |r.buf| + 1
    modifies r
    ensures r.Valid()
    ensures Did(o, EntryLoop(S, f, r.buf, old(r.pos), c, Pair(Default(KeyType(f)), DefaultOf(f.ty))), r.pos)
    decreases |r.buf| + 2 - r.pos, 0
  {
    hide ReadU32, EntryField, Default, DefaultOf;
    var start := Pair(Default(KeyType(f)), DefaultOf(f.ty));
    var kv := start;
    while r.pos < c
      invariant r.Valid() && old(r.pos) <= r.pos <= |r.buf| + 1
      invariant EntryLoop(S, f, r.buf, r.pos, c, kv) == EntryLoop(S, f, r.buf, old(r.pos), c, start)
      decreases |r.buf| + 2 - r.pos
    {
      var t := r.UInt32();
      if t.Throw? { return Throw(t.error); }
      var next := DecodeItem(S, f, r, t.value, kv);
      if next.Throw? { return Throw(next.error); }
      kv := next.value;
    }
    return Return(kv);
  }

  method DecodeItem(S: Schema, f: Field, r: Reader, t: nat, kv: Pair) returns (o: Outcome<Pair>)
    requires r.Valid() && Closed(S) && (f.ty.Ref? ==> f.ty.index < |S|) && r.pos <= |r.buf|
    modifies r
    ensures r.Valid() && Did(o, EntryField(S, f, r.buf, old(r.pos), t, kv), r.pos)
    decreases |r.buf| + 2 - r.pos, 3
  {
    hide ReadScalar, DecodeValue, SkipType;
    if t / 8 == 1 {
      var k := DecodeScalar(KeyType(f), r);
      if k.Throw? { return Throw(k.error); }
      return Return(Pair(k.value, kv.val));
    } else if t / 8 == 2 {
      var v := DecodeOne(S, f.ty, r, false);
      if v.Throw? { return Throw(v.error); }
      return Return(Pair(kv.key, v.value));
    } else {
      var skipped := r.SkipField(t % 8);
      if skipped.Throw? { return Throw(skipped.error); }
      return Return(kv);
    }
  }

  /** `encode(m).finish()` */
  method Encode(S: Schema, j: nat, m: Message, zero: LongBits) returns (buf: array<byte>)
    requires SchemaOk(S) && Conforms(S, j, m) && zero.Value() == 0
    modifies zero
    ensures buf[..] == Encoded(S, j, m)
  {
    hide SchemaOk, Conforms, Writer.Valid, Writer.Fresh, Writer.Values, Writer.Pending, Images, Join, Output, Leftover,
         Tree, RecordsBytes, Varint;
    var w := new Writer(zero);
    NewWriter(w);
    EncodeMessage(S, j, m, w);
    assert w.stack == [Encoded(S, j, m)] by { assert [] + Encoded(S, j, m) == Encoded(S, j, m); }
    ValuesIn(w);
    buf := w.Finish();
  }

  lemma NewWriter(w: Writer)
    requires w.Valid() && w.stack == [[]]
    ensures w.tail in w.Repr && w.tail != w.zero as object
  {
    hide Writer.Valid;
    w.ZeroIsZero();
  }

  /** `decode(buf)` */
  method Decode(S: Schema, j: nat, buf: seq<byte>) returns (o: Outcome<Message>)
    requires Closed(S) && j < |S|
    ensures o == Answer(Decoded(S, j, buf))
  {
    hide DecodeMessage;
    var r := new Reader(buf);
    o := DecodeWith(S, j, r, r.len);
  }

  /** A conforming message, encoded with a new writer, finished, and decoded again, is
      the same message exactly when it is tidy. */
  method ThereAndBack(S: Schema, j: nat, m: Message, zero: LongBits) returns (o: Outcome<Message>)
    requires SchemaOk(S) && Conforms(S, j, m) && |Encoded(S, j, m)| < TWO32 && zero.Value() == 0
    modifies zero
    ensures o == Return(ReadBack(m))
    ensures o == Return(m) <==> Tidy(m)
  {
    hide SchemaOk, Conforms, Decoded, Encoded, ReadBack, Tidy;
    ConformsIndex(S, j, m);
    assert Closed(S) by { Closes(S); }
    var buf := Encode(S, j, m, zero);
    DecodesEncoded(S, j, m);
    o := Decode(S, j, buf[..]);
    ExactMessage(S, j, m);
  }

  lemma Closes(S: Schema)
    requires SchemaOk(S)
    ensures Closed(S)
  {}

  lemma ValuesIn(w: Writer)
    requires w.Valid()
    ensures w.Values() <= w.Repr
  {}
}
