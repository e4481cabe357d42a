/** What the decoder makes of every well-formed record tree. */
module DecodingTheorems {
  import opened Bits
  import opened Buffers
  import opened Varints
  import opened Long
  import opened Readers
  import opened Writers
  import opened Messages
  import opened Wire
  import opened Decoding

  const MAX_ID := 0x2000_0000

  ghost predicate DistinctIds(fields: seq<Field>) {
    forall i, k :: 0 <= i < k < |fields| ==> fields[i].id != fields[k].id
  }

  ghost predicate SchemaOk(S: Schema) {
    && Closed(S)
    && (forall j :: 0 <= j < |S| ==> DistinctIds(S[j].fields))
    && (forall j, f :: 0 <= j < |S| && f in S[j].fields ==> f.id < MAX_ID)
  }

  predicate RawOk(f: RawField)
    decreases f, 0
  {
    f.id < MAX_ID &&
    match f.raw
    case RawVarint(b) => |b| >= 1 && b[|b| - 1] < 128 && forall i :: 0 <= i < |b| - 1 ==> b[i] >= 128
    case RawFixed64(b) => |b| == 8
    case RawDelimited(b) => true
    case RawGroup(fields) => RawsOk(fields)
    case RawFixed32(b) => |b| == 4
  }

  predicate RawsOk(fs: seq<RawField>)
    decreases fs
  {
    fs == [] || (RawOk(fs[0]) && RawsOk(fs[1..]))
  }

  /** A record that an encoder for type j could have written, or one of no field of j. */
  ghost predicate RecordOk(S: Schema, j: nat, rec: Record)
    requires j < |S|
    decreases rec
  {
    match rec
    case Leaf(f, v) => f in S[j].fields && !f.rule.MapOf? && f.ty.Basic? && InRange(f.ty.scalar, v)
    case Packed(f, vs) =>
      && f in S[j].fields && f.rule.Repeated? && f.ty.Basic? && Packable(f.ty.scalar)
      && AllInRange(f.ty.scalar, vs)
    case Sub(f, body) => f in S[j].fields && !f.rule.MapOf? && BodyOk(S, f.ty, body)
    case Entry(f, items) => f in S[j].fields && f.rule.MapOf? && ItemsOk(S, f, items)
    case Unknown(field) => FieldById(S[j].fields, field.id) == NotFound && RawOk(field)
  }

  ghost predicate AllInRange(s: Scalar, vs: seq<Value>) {
    vs == [] || (InRange(s, vs[0]) && AllInRange(s, vs[1..]))
  }

  /** The records of a whole submessage, no required field missing. */
  ghost predicate BodyOk(S: Schema, ty: FieldType, body: seq<Record>)
    decreases body, 1
  {
    && ty.Ref? && ty.index < |S| && RecordsOk(S, ty.index, body)
    && FirstMissing(S[ty.index].fields, Fold(S, map[], body)) == []
  }

  ghost predicate RecordsOk(S: Schema, j: nat, recs: seq<Record>)
    requires j < |S|
    decreases recs, 0
  {
    recs == [] || (RecordOk(S, j, recs[0]) && RecordsOk(S, j, recs[1..]))
  }

  ghost predicate ItemOk(S: Schema, f: Field, item: Item)
    decreases item
  {
    match item
    case KeyItem(v) => InRange(KeyType(f), v)
    case ValueItem(v) => f.ty.Basic? && InRange(f.ty.scalar, v)
    case BodyItem(body) => BodyOk(S, f.ty, body)
    case OtherItem(field) => field.id != 1 && field.id != 2 && RawOk(field)
  }

  ghost predicate ItemsOk(S: Schema, f: Field, items: seq<Item>)
    decreases items
  {
    items == [] || (ItemOk(S, f, items[0]) && ItemsOk(S, f, items[1..]))
  }

  /** Field numbers below the bound are exactly those whose tags are not cut to 32 bits. */
  lemma TagExact(id: nat, wireType: nat)
    requires wireType < 8
    ensures id < MAX_ID <==> ToUint32(id * 8 + wireType) == id * 8 + wireType
  {}

  lemma TagRead(id: nat, wireType: nat, buf: seq<byte>, pos: nat)
    requires id < MAX_ID && wireType < 8 && Holds(buf, pos, Tag(id, wireType))
    ensures ReadU32(buf, pos) == Ok(id * 8 + wireType, pos + |Tag(id, wireType)|)
  {
    hide Varint, ReadU32;
    UInt32RoundTrip(id * 8 + wireType, buf, pos);
  }

  lemma LengthRead(bytes: seq<byte>, buf: seq<byte>, pos: nat)
    requires |Delimited(bytes)| < TWO32 && Holds(buf, pos, Delimited(bytes))
    ensures var p := pos + |Delimited(bytes)| - |bytes|;
            pos < p && ReadU32(buf, pos) == Ok(|bytes|, p) && Holds(buf, p, bytes)
  {
    hide Varint, ReadU32;
    HoldsSplit(buf, pos, Varint(|bytes|), bytes);
    UInt32RoundTrip(|bytes|, buf, pos);
  }

  lemma {:induction false} SkipVarintBytes(b: seq<byte>, buf: seq<byte>, pos: nat)
    requires |b| >= 1 && b[|b| - 1] < 128 && forall i :: 0 <= i < |b| - 1 ==> b[i] >= 128
    requires Holds(buf, pos, b)
    ensures SkipVarint(buf, pos) == Ok((), pos + |b|)
    decreases |b|
  {
    HoldsAt(buf, pos, b, 0);
    if |b| > 1 {
      assert b == [b[0]] + b[1..];
      HoldsSplit(buf, pos, [b[0]], b[1..]);
      SkipVarintBytes(b[1..], buf, pos + 1);
    }
  }

  /** skipType stops exactly at the end of the field body, nested groups included. */
  lemma {:induction false} SkipRaw(f: RawField, buf: seq<byte>, pos: nat)
    requires RawOk(f) && |RawBytes(f)| < TWO32 && Holds(buf, pos, RawBytes(f))
    ensures SkipType(buf, pos, RawType(f.raw)) == Ok((), pos + |RawBytes(f)|)
    decreases f, 0
  {
    hide ReadU32, Tag, Delimited, Holds, SkipVarint;
    match f.raw
    case RawVarint(b) => SkipVarintBytes(b, buf, pos);
    case RawFixed64(b) => HoldsFits(buf, pos, b);
    case RawFixed32(b) => HoldsFits(buf, pos, b);
    case RawDelimited(b) =>
      LengthRead(b, buf, pos);
      HoldsFits(buf, pos + |Delimited(b)| - |b|, b);
    case RawGroup(fields) => SkipRaws(fields, f.id, buf, pos);
  }

  lemma HoldsFits(buf: seq<byte>, pos: nat, b: seq<byte>)
    requires Holds(buf, pos, b)
    ensures pos + |b| <= |buf|
  {}

  lemma {:induction false} SkipRaws(fs: seq<RawField>, id: nat, buf: seq<byte>, pos: nat)
    requires RawsOk(fs) && id < MAX_ID && |RawsBytes(fs) + Tag(id, 4)| < TWO32
    requires Holds(buf, pos, RawsBytes(fs) + Tag(id, 4))
    ensures SkipGroup(buf, pos) == Ok((), pos + |RawsBytes(fs) + Tag(id, 4)|)
    decreases fs
  {
    hide ReadU32, Tag, Holds, SkipVarint, SkipType, SkipGroup, RawBytes;
    if fs == [] {
      assert RawsBytes(fs) + Tag(id, 4) == Tag(id, 4);
      TagRead(id, 4, buf, pos);
      SkipGroupEnd(buf, pos, id, pos + |Tag(id, 4)|);
    } else {
      var f, rest := fs[0], RawsBytes(fs[1..]) + Tag(id, 4);
      assert RawsBytes(fs) + Tag(id, 4) == Tag(f.id, RawType(f.raw)) + (RawBytes(f) + rest);
      HoldsSplit(buf, pos, Tag(f.id, RawType(f.raw)), RawBytes(f) + rest);
      TagRead(f.id, RawType(f.raw), buf, pos);
      var p := pos + |Tag(f.id, RawType(f.raw))|;
      HoldsSplit(buf, p, RawBytes(f), rest);
      SkipRaw(f, buf, p);
      SkipRaws(fs[1..], id, buf, p + |RawBytes(f)|);
      SkipGroupNext(buf, pos, f.id, RawType(f.raw), p, p + |RawBytes(f)|);
    }
  }

  lemma SkipGroupEnd(buf: seq<byte>, pos: nat, id: nat, p: nat)
    requires ReadU32(buf, pos) == Ok(id * 8 + 4, p)
    ensures SkipGroup(buf, pos) == Ok((), p)
  {
    hide ReadU32;
  }

  lemma SkipGroupNext(buf: seq<byte>, pos: nat, id: nat, wireType: nat, p: nat, q: nat)
    requires wireType < 8 && wireType != 4 && ReadU32(buf, pos) == Ok(id * 8 + wireType, p) && SkipType(buf, p, wireType) == Ok((), q)
    ensures SkipGroup(buf, pos) == SkipGroup(buf, q)
  {
    hide ReadU32, SkipType;
  }

  lemma {:induction false} FieldFound(fields: seq<Field>, f: Field)
    requires DistinctIds(fields) && f in fields
    ensures FieldById(fields, f.id) == Found(f)
  {
    if fields[0] != f {
      assert f in fields[1..];
      assert fields[0].id != f.id by { var k :| 0 <= k < |fields| && fields[k] == f; }
      FieldFound(fields[1..], f);
    }
  }

  /** A tag and a field body in a buffer take one turn of the loop. */
  lemma Turn(S: Schema, j: nat, id: nat, wireType: nat, body: seq<byte>, buf: seq<byte>, pos: nat, c: nat, acc: Slots, acc': Slots)
    requires SchemaOk(S) && j < |S| && id < MAX_ID && wireType < 8 && wireType != 4
    requires Holds(buf, pos, Tag(id, wireType) + body) && pos + |Tag(id, wireType) + body| <= c
    requires DecodeField(S, j, buf, pos + |Tag(id, wireType)|, id * 8 + wireType, acc)
             == Ok(acc', pos + |Tag(id, wireType) + body|)
    ensures DecodeLoop(S, j, buf, pos, c, acc)
            == DecodeLoop(S, j, buf, pos + |Tag(id, wireType) + body|, c, acc')
  {
    hide ReadU32, Tag, Holds, DecodeField;
    HoldsSplit(buf, pos, Tag(id, wireType), body);
    TagRead(id, wireType, buf, pos);
    HoldsFits(buf, pos, Tag(id, wireType) + body);
  }

  lemma LeafField(S: Schema, j: nat, f: Field, v: Value, buf: seq<byte>, pos: nat, acc: Slots)
    requires SchemaOk(S) && j < |S| && RecordOk(S, j, Leaf(f, v)) && |ScalarBytes(f.ty.scalar, v)| < TWO32
    requires Holds(buf, pos, ScalarBytes(f.ty.scalar, v))
    ensures DecodeField(S, j, buf, pos, f.id * 8 + WireType(f.ty.scalar), acc)
            == Ok(AddValue(acc, f, AsRead(v)), pos + |ScalarBytes(f.ty.scalar, v)|)
  {
    hide AsRead, ReadScalar, ScalarBytes, Holds, InRange, DecodeMessage, PackedLoop, EntryLoop, FieldById;
    HoldsFits(buf, pos, ScalarBytes(f.ty.scalar, v));
    FieldFound(S[j].fields, f);
    ScalarRoundTrip(f.ty.scalar, v, buf, pos);
  }

  lemma {:induction false} PackedValues(s: Scalar, vs: seq<Value>, buf: seq<byte>, pos: nat, acc: seq<Value>)
    requires AllInRange(s, vs) && Packable(s) && |ScalarsBytes(s, vs)| < TWO32 && Holds(buf, pos, ScalarsBytes(s, vs))
    ensures PackedLoop(s, buf, pos, pos + |ScalarsBytes(s, vs)|, acc) == Ok(acc + vs, pos + |ScalarsBytes(s, vs)|)
    decreases |vs|
  {
    hide AsRead, ReadScalar, ScalarBytes, Holds, InRange, PackedLoop, Overruns, EndsOpen, Wide;
    HoldsFits(buf, pos, ScalarsBytes(s, vs));
    if vs != [] {
      var b, rest := ScalarBytes(s, vs[0]), ScalarsBytes(s, vs[1..]);
      HoldsSplit(buf, pos, b, rest);
      ScalarRoundTrip(s, vs[0], buf, pos);
      SameAsRead(s, vs[0]);
      PackedValues(s, vs[1..], buf, pos + |b|, acc + [vs[0]]);
      assert pos + |b| + |rest| == pos + |ScalarsBytes(s, vs)|;
      assert acc + [vs[0]] + vs[1..] == acc + vs;
      PackedNext(s, buf, pos, pos + |ScalarsBytes(s, vs)|, acc, vs[0], pos + |b|);
    } else {
      assert acc + vs == acc;
      PackedEnd(s, buf, pos, acc);
    }
  }

  lemma SameAsRead(s: Scalar, v: Value)
    requires InRange(s, v) && Packable(s)
    ensures AsRead(v) == v
  {}

  lemma PackedNext(s: Scalar, buf: seq<byte>, pos: nat, c: nat, acc: seq<Value>, v: Value, p: nat)
    requires pos < c && pos <= |buf| && ReadScalar(s, buf, pos) == Ok(v, p)
    ensures p <= |buf| + 1 && PackedLoop(s, buf, pos, c, acc) == PackedLoop(s, buf, p, c, acc + [v])
  {
    hide ReadScalar, EndsOpen, Wide;
  }

  lemma PackedEnd(s: Scalar, buf: seq<byte>, pos: nat, acc: seq<Value>)
    requires pos <= |buf|
    ensures PackedLoop(s, buf, pos, pos, acc) == Ok(acc, pos)
  {}

  lemma PackedField(S: Schema, j: nat, f: Field, vs: seq<Value>, buf: seq<byte>, pos: nat, acc: Slots)
    requires SchemaOk(S) && j < |S| && RecordOk(S, j, Packed(f, vs)) && |Delimited(ScalarsBytes(f.ty.scalar, vs))| < TWO32
    requires Holds(buf, pos, Delimited(ScalarsBytes(f.ty.scalar, vs)))
    ensures DecodeField(S, j, buf, pos, f.id * 8 + 2, acc)
            == Ok(Apply(S, acc, Packed(f, vs)), pos + |Delimited(ScalarsBytes(f.ty.scalar, vs))|)
  {
    hide ScalarsBytes, Holds, InRange, AllInRange, DecodeMessage, PackedLoop, EntryLoop, FieldById, Delimited, ReadU32;
    var b := ScalarsBytes(f.ty.scalar, vs);
    HoldsFits(buf, pos, Delimited(b));
    FieldFound(S[j].fields, f);
    LengthRead(b, buf, pos);
    PackedValues(f.ty.scalar, vs, buf, pos + |Delimited(b)| - |b|, Elements(acc, f.id));
  }

  lemma UnknownField(S: Schema, j: nat, field: RawField, buf: seq<byte>, pos: nat, acc: Slots)
    requires SchemaOk(S) && j < |S| && RecordOk(S, j, Unknown(field)) && |RawBytes(field)| < TWO32
    requires Holds(buf, pos, RawBytes(field))
    ensures DecodeField(S, j, buf, pos, field.id * 8 + RawType(field.raw), acc) == Ok(acc, pos + |RawBytes(field)|)
  {
    hide Holds, DecodeMessage, PackedLoop, EntryLoop, FieldById, SkipType, RawBytes, RawOk;
    HoldsFits(buf, pos, RawBytes(field));
    SkipRaw(field, buf, pos);
  }

  /** A run of well-formed records is decoded one after the other into what they mean. */
  lemma {:induction false} LoopRecords(S: Schema, j: nat, recs: seq<Record>, buf: seq<byte>, pos: nat, c: nat, acc: Slots)
    requires SchemaOk(S) && j < |S| && RecordsOk(S, j, recs) && |RecordsBytes(S, recs)| < TWO32
    requires Holds(buf, pos, RecordsBytes(S, recs)) && pos + |RecordsBytes(S, recs)| <= c
    ensures pos + |RecordsBytes(S, recs)| <= |buf|
    ensures DecodeLoop(S, j, buf, pos, c, acc)
            == DecodeLoop(S, j, buf, pos + |RecordsBytes(S, recs)|, c, Fold(S, acc, recs))
    decreases recs, 0
  {
    hide Holds, DecodeLoop, RecordBytes, RecordOk, Apply;
    HoldsFits(buf, pos, RecordsBytes(S, recs));
    if recs != [] {
      var b, rest := RecordBytes(S, recs[0]), RecordsBytes(S, recs[1..]);
      HoldsSplit(buf, pos, b, rest);
      StepRecord(S, j, recs[0], buf, pos, c, acc);
      LoopRecords(S, j, recs[1..], buf, pos + |b|, c, Apply(S, acc, recs[0]));
    }
  }

  lemma {:induction false} StepRecord(S: Schema, j: nat, rec: Record, buf: seq<byte>, pos: nat, c: nat, acc: Slots)
    requires SchemaOk(S) && j < |S| && RecordOk(S, j, rec) && |RecordBytes(S, rec)| < TWO32
    requires Holds(buf, pos, RecordBytes(S, rec)) && pos + |RecordBytes(S, rec)| <= c
    ensures pos + |RecordBytes(S, rec)| <= |buf|
    ensures DecodeLoop(S, j, buf, pos, c, acc)
            == DecodeLoop(S, j, buf, pos + |RecordBytes(S, rec)|, c, Apply(S, acc, rec))
    decreases rec
  {
    hide Holds, DecodeLoop, DecodeField, RecordsBytes, ItemsBytes, ScalarBytes, ScalarsBytes, RawBytes, Tag, Delimited, Fold, FoldItems,
      Overruns, EndsOpen, AsRead;
    HoldsFits(buf, pos, RecordBytes(S, rec));
    match rec
    case Leaf(f, v) =>
      var w, b := WireType(f.ty.scalar), ScalarBytes(f.ty.scalar, v);
      HoldsSplit(buf, pos, Tag(f.id, w), b);
      LeafField(S, j, f, v, buf, pos + |Tag(f.id, w)|, acc);
      Turn(S, j, f.id, w, b, buf, pos, c, acc, AddValue(acc, f, AsRead(v)));
    case Packed(f, vs) =>
      var b := Delimited(ScalarsBytes(f.ty.scalar, vs));
      HoldsSplit(buf, pos, Tag(f.id, 2), b);
      PackedField(S, j, f, vs, buf, pos + |Tag(f.id, 2)|, acc);
      Turn(S, j, f.id, 2, b, buf, pos, c, acc, Apply(S, acc, rec));
    case Sub(f, body) =>
      StepSub(S, j, f, body, buf, pos, c, acc);
    case Entry(f, items) =>
      var b := Delimited(ItemsBytes(S, f, items));
      HoldsSplit(buf, pos, Tag(f.id, 2), b);
      MapField(S, j, f, items, buf, pos + |Tag(f.id, 2)|, acc);
      Turn(S, j, f.id, 2, b, buf, pos, c, acc, Apply(S, acc, rec));
    case Unknown(field) =>
      var w, b := RawType(field.raw), RawBytes(field);
      HoldsSplit(buf, pos, Tag(field.id, w), b);
      UnknownField(S, j, field, buf, pos + |Tag(field.id, w)|, acc);
      Turn(S, j, field.id, w, b, buf, pos, c, acc, acc);
  }

  lemma {:induction false} StepSub(S: Schema, j: nat, f: Field, body: seq<Record>, buf: seq<byte>, pos: nat, c: nat, acc: Slots)
    requires SchemaOk(S) && j < |S| && RecordOk(S, j, Sub(f, body)) && |RecordBytes(S, Sub(f, body))| < TWO32
    requires Holds(buf, pos, RecordBytes(S, Sub(f, body))) && pos + |RecordBytes(S, Sub(f, body))| <= c
    ensures DecodeLoop(S, j, buf, pos, c, acc)
            == DecodeLoop(S, j, buf, pos + |RecordBytes(S, Sub(f, body))|, c, Apply(S, acc, Sub(f, body)))
    decreases body, 3
  {
    hide Holds, DecodeLoop, DecodeField, RecordsBytes, Tag, Delimited, Fold, Overruns, EndsOpen, Apply;
    if IsGroup(S, f.ty) {
      var b := RecordsBytes(S, body) + Tag(f.id, 4);
      assert RecordBytes(S, Sub(f, body)) == Tag(f.id, 3) + b;
      HoldsSplit(buf, pos, Tag(f.id, 3), b);
      GroupField(S, j, f, body, buf, pos + |Tag(f.id, 3)|, acc);
      Turn(S, j, f.id, 3, b, buf, pos, c, acc, Apply(S, acc, Sub(f, body)));
    } else {
      var b := Delimited(RecordsBytes(S, body));
      HoldsSplit(buf, pos, Tag(f.id, 2), b);
      SubField(S, j, f, body, buf, pos + |Tag(f.id, 2)|, acc);
      Turn(S, j, f.id, 2, b, buf, pos, c, acc, Apply(S, acc, Sub(f, body)));
    }
  }

  /** A length-delimited body is decoded as a whole message. */
  lemma {:induction false} BodyMessage(S: Schema, ty: FieldType, body: seq<Record>, buf: seq<byte>, pos: nat)
    requires SchemaOk(S) && BodyOk(S, ty, body) && |RecordsBytes(S, body)| < TWO32 && Holds(buf, pos, RecordsBytes(S, body))
    ensures pos + |RecordsBytes(S, body)| <= |buf|
    ensures DecodeMessage(S, ty.index, buf, pos, pos + |RecordsBytes(S, body)|)
            == Ok(Message(Fold(S, map[], body)), pos + |RecordsBytes(S, body)|)
    decreases body, 1
  {
    hide Holds, RecordsBytes, Fold, FirstMissing;
    LoopRecords(S, ty.index, body, buf, pos, pos + |RecordsBytes(S, body)|, map[]);
  }

  lemma {:induction false} SubField(S: Schema, j: nat, f: Field, body: seq<Record>, buf: seq<byte>, pos: nat, acc: Slots)
    requires SchemaOk(S) && j < |S| && RecordOk(S, j, Sub(f, body)) && !IsGroup(S, f.ty)
    requires |Delimited(RecordsBytes(S, body))| < TWO32 && Holds(buf, pos, Delimited(RecordsBytes(S, body)))
    ensures pos <= |buf|
    ensures DecodeField(S, j, buf, pos, f.id * 8 + 2, acc)
            == Ok(Apply(S, acc, Sub(f, body)), pos + |Delimited(RecordsBytes(S, body))|)
    decreases body, 2
  {
    hide Holds, RecordsBytes, Fold, DecodeMessage, PackedLoop, EntryLoop, FieldById, Delimited, ReadU32;
    var b := RecordsBytes(S, body);
    HoldsFits(buf, pos, Delimited(b));
    FieldFound(S[j].fields, f);
    LengthRead(b, buf, pos);
    BodyMessage(S, f.ty, body, buf, pos + |Delimited(b)| - |b|);
  }

  /** A group is decoded up to and including its end tag, whatever follows. */
  lemma {:induction false} GroupField(S: Schema, j: nat, f: Field, body: seq<Record>, buf: seq<byte>, pos: nat, acc: Slots)
    requires SchemaOk(S) && j < |S| && RecordOk(S, j, Sub(f, body)) && IsGroup(S, f.ty)
    requires |RecordsBytes(S, body) + Tag(f.id, 4)| < TWO32 && Holds(buf, pos, RecordsBytes(S, body) + Tag(f.id, 4))
    ensures pos <= |buf|
    ensures DecodeField(S, j, buf, pos, f.id * 8 + 3, acc)
            == Ok(Apply(S, acc, Sub(f, body)), pos + |RecordsBytes(S, body) + Tag(f.id, 4)|)
    decreases body, 2
  {
    hide Holds, RecordsBytes, Fold, DecodeMessage, PackedLoop, EntryLoop, FieldById, Tag;
    HoldsFits(buf, pos, RecordsBytes(S, body) + Tag(f.id, 4));
    FieldFound(S[j].fields, f);
    GroupMessage(S, f.ty, f.id, body, buf, pos);
  }

  lemma {:induction false} GroupMessage(S: Schema, ty: FieldType, id: nat, body: seq<Record>, buf: seq<byte>, pos: nat)
    requires SchemaOk(S) && BodyOk(S, ty, body) && IsGroup(S, ty) && id < MAX_ID
    requires |RecordsBytes(S, body) + Tag(id, 4)| < TWO32 && Holds(buf, pos, RecordsBytes(S, body) + Tag(id, 4))
    ensures pos <= |buf|
    ensures DecodeMessage(S, ty.index, buf, pos, |buf|)
            == Ok(Message(Fold(S, map[], body)), pos + |RecordsBytes(S, body) + Tag(id, 4)|)
    decreases body, 1
  {
    hide Holds, RecordsBytes, Fold, Tag, ReadU32, FirstMissing, DecodeLoop;
    var b := RecordsBytes(S, body);
    HoldsFits(buf, pos, b + Tag(id, 4));
    HoldsSplit(buf, pos, b, Tag(id, 4));
    TagRead(id, 4, buf, pos + |b|);
    LoopRecords(S, ty.index, body, buf, pos, |buf|, map[]);
    HoldsFits(buf, pos + |b|, Tag(id, 4));
    EndTag(S, ty.index, id, buf, pos + |b|, Fold(S, map[], body));
  }

  lemma EndTag(S: Schema, j: nat, id: nat, buf: seq<byte>, pos: nat, acc: Slots)
    requires SchemaOk(S) && j < |S| && S[j].group && id < MAX_ID && pos + |Tag(id, 4)| <= |buf|
    requires ReadU32(buf, pos) == Ok(id * 8 + 4, pos + |Tag(id, 4)|)
    ensures DecodeLoop(S, j, buf, pos, |buf|, acc) == Ok(acc, pos + |Tag(id, 4)|)
  {
    hide Tag, ReadU32;
  }

  lemma {:induction false} MapField(S: Schema, j: nat, f: Field, items: seq<Item>, buf: seq<byte>, pos: nat, acc: Slots)
    requires SchemaOk(S) && j < |S| && RecordOk(S, j, Entry(f, items))
    requires |Delimited(ItemsBytes(S, f, items))| < TWO32 && Holds(buf, pos, Delimited(ItemsBytes(S, f, items)))
    ensures pos <= |buf|
    ensures DecodeField(S, j, buf, pos, f.id * 8 + 2, acc)
            == Ok(Apply(S, acc, Entry(f, items)), pos + |Delimited(ItemsBytes(S, f, items))|)
    decreases items, 2
  {
    hide Holds, ItemsBytes, FoldItems, DecodeMessage, PackedLoop, EntryLoop, FieldById, Delimited, ReadU32;
    var b := ItemsBytes(S, f, items);
    HoldsFits(buf, pos, Delimited(b));
    FieldFound(S[j].fields, f);
    LengthRead(b, buf, pos);
    LoopItems(S, f, items, buf, pos + |Delimited(b)| - |b|, Pair(Default(KeyType(f)), DefaultOf(f.ty)));
  }

  lemma {:induction false} LoopItems(S: Schema, f: Field, items: seq<Item>, buf: seq<byte>, pos: nat, kv: Pair)
    requires SchemaOk(S) && (f.ty.Ref? ==> f.ty.index < |S|) && ItemsOk(S, f, items)
    requires |ItemsBytes(S, f, items)| < TWO32 && Holds(buf, pos, ItemsBytes(S, f, items))
    ensures pos + |ItemsBytes(S, f, items)| <= |buf|
    ensures EntryLoop(S, f, buf, pos, pos + |ItemsBytes(S, f, items)|, kv)
            == Ok(FoldItems(S, f, items, kv), pos + |ItemsBytes(S, f, items)|)
    decreases items, 1
  {
    hide Holds, ItemBytes, ItemOk, ApplyItem, EntryField, ReadU32;
    HoldsFits(buf, pos, ItemsBytes(S, f, items));
    if items != [] {
      var b, rest := ItemBytes(S, f, items[0]), ItemsBytes(S, f, items[1..]);
      HoldsSplit(buf, pos, b, rest);
      var t, p := StepItem(S, f, items[0], buf, pos, kv);
      LoopItems(S, f, items[1..], buf, pos + |b|, ApplyItem(S, f, items[0], kv));
      assert pos + |b| + |rest| == pos + |ItemsBytes(S, f, items)|;
    }
  }

  /** A tag and the scalar behind it. */
  lemma TaggedScalar(id: nat, s: Scalar, v: Value, buf: seq<byte>, pos: nat)
    requires id < MAX_ID && InRange(s, v)
    requires var t, b := Tag(id, WireType(s)), ScalarBytes(s, v); |t + b| < TWO32 && Holds(buf, pos, t + b)
    ensures var t, b := Tag(id, WireType(s)), ScalarBytes(s, v);
            && pos + |t| <= |buf| && ReadU32(buf, pos) == Ok(id * 8 + WireType(s), pos + |t|)
            && ReadScalar(s, buf, pos + |t|) == Ok(AsRead(v), pos + |t + b|)
  {
    hide AsRead, Holds, ScalarBytes, Tag, ReadU32, ReadScalar, InRange, EndsOpen, Wide;
    var t, b := Tag(id, WireType(s)), ScalarBytes(s, v);
    HoldsSplit(buf, pos, t, b);
    HoldsFits(buf, pos + |t|, b);
    TagRead(id, WireType(s), buf, pos);
    ScalarRoundTrip(s, v, buf, pos + |t|);
  }

  lemma {:induction false} StepItem(S: Schema, f: Field, item: Item, buf: seq<byte>, pos: nat, kv: Pair) returns (t: nat, p: nat)
    requires SchemaOk(S) && (f.ty.Ref? ==> f.ty.index < |S|) && ItemOk(S, f, item)
    requires |ItemBytes(S, f, item)| < TWO32 && Holds(buf, pos, ItemBytes(S, f, item))
    ensures p <= |buf| && ReadU32(buf, pos) == Ok(t, p)
    ensures EntryField(S, f, buf, p, t, kv) == Ok(ApplyItem(S, f, item, kv), pos + |ItemBytes(S, f, item)|)
    decreases item
  {
    hide Holds, ScalarBytes, RawBytes, Tag, Delimited, Fold, RecordsBytes, DecodeMessage, ReadU32, ReadScalar, SkipType, InRange, RawOk,
      Overruns, EndsOpen, Wide, AsRead;
    match item
    case KeyItem(v) =>
      var w := WireType(KeyType(f));
      t, p := 8 + w, pos + |Tag(1, w)|;
      TaggedScalar(1, KeyType(f), v, buf, pos);
    case ValueItem(v) =>
      var w := WireType(f.ty.scalar);
      t, p := 16 + w, pos + |Tag(2, w)|;
      TaggedScalar(2, f.ty.scalar, v, buf, pos);
    case BodyItem(body) =>
      var b := RecordsBytes(S, body);
      t, p := 18, pos + |Tag(2, 2)|;
      HoldsSplit(buf, pos, Tag(2, 2), Delimited(b));
      HoldsFits(buf, p, Delimited(b));
      TagRead(2, 2, buf, pos);
      LengthRead(b, buf, p);
      BodyMessage(S, f.ty, body, buf, p + |Delimited(b)| - |b|);
    case OtherItem(field) =>
      var w, b := RawType(field.raw), RawBytes(field);
      t, p := field.id * 8 + w, pos + |Tag(field.id, w)|;
      TaggedRaw(field, buf, pos);
  }

  /** A tag and the field behind it. */
  lemma TaggedRaw(field: RawField, buf: seq<byte>, pos: nat)
    requires RawOk(field)
    requires var t, b := Tag(field.id, RawType(field.raw)), RawBytes(field); |t + b| < TWO32 && Holds(buf, pos, t + b)
    ensures var w := RawType(field.raw);
            var t, b := Tag(field.id, w), RawBytes(field);
            && pos + |t| + |b| <= |buf| && ReadU32(buf, pos) == Ok(field.id * 8 + w, pos + |t|)
            && SkipType(buf, pos + |t|, w) == Ok((), pos + |t| + |b|)
  {
    hide Holds, Tag, ReadU32, SkipType, RawBytes, RawOk;
    var w, b := RawType(field.raw), RawBytes(field);
    HoldsSplit(buf, pos, Tag(field.id, w), b);
    HoldsFits(buf, pos + |Tag(field.id, w)|, b);
    assert field.id < MAX_ID by { RawIdOk(field); }
    TagRead(field.id, w, buf, pos);
    SkipRaw(field, buf, pos + |Tag(field.id, w)|);
  }

  lemma RawIdOk(f: RawField)
    requires RawOk(f)
    ensures f.id < MAX_ID
  {}

  /** The result of decoding a whole buffer. */
  function Decoded(S: Schema, j: nat, buf: seq<byte>): (r: Read<Message>)
    requires Closed(S) && j < |S|
  {
    DecodeMessage(S, j, buf, 0, |buf|)
  }

  /** What a run of records is decoded to: the message they mean, unless that lacks a
      required field. */
  function Meaning(S: Schema, j: nat, recs: seq<Record>): (r: Read<Message>)
    requires j < |S|
  {
    var slots := Fold(S, map[], recs);
    var missing := FirstMissing(S[j].fields, slots);
    if missing != [] then Err(MissingRequired(missing[0]))
    else Ok(Message(slots), |RecordsBytes(S, recs)|)
  }

  /** Decoding the bytes of any well-formed records, in any order and with any fields the
      schema does not know among them, at any depth, yields exactly what they mean. */
  lemma DecodesRecords(S: Schema, j: nat, recs: seq<Record>)
    requires SchemaOk(S) && j < |S| && RecordsOk(S, j, recs) && |RecordsBytes(S, recs)| < TWO32
    ensures Decoded(S, j, RecordsBytes(S, recs)) == Meaning(S, j, recs)
  {
    hide RecordsBytes, Fold, FirstMissing, RecordsOk;
    var buf := RecordsBytes(S, recs);
    assert buf[0..|buf|] == buf;
    LoopRecords(S, j, recs, buf, 0, |buf|, map[]);
  }

  // Required fields.

  /** The required fields are all there. */
  ghost predicate AllPresent(fields: seq<Field>, slots: Slots) {
    forall f :: f in fields && f.rule.Required? ==> f.id in slots
  }

  /** The field at k is the first required one, in declaration order, that is not there. */
  ghost predicate FirstAbsent(fields: seq<Field>, slots: Slots, k: nat) {
    && k < |fields| && fields[k].rule.Required? && fields[k].id !in slots
    && forall i :: 0 <= i < k && fields[i].rule.Required? ==> fields[i].id in slots
  }

  lemma {:induction false} MissingIs(fields: seq<Field>, slots: Slots)
    ensures FirstMissing(fields, slots) == [] <==> AllPresent(fields, slots)
    ensures forall k: nat :: FirstAbsent(fields, slots, k) ==> FirstMissing(fields, slots) == [fields[k].id]
    ensures FirstMissing(fields, slots) != [] ==> exists k: nat :: FirstAbsent(fields, slots, k)
  {
    if fields == [] {
    } else if fields[0].rule.Required? && fields[0].id !in slots {
      assert FirstAbsent(fields, slots, 0);
      forall k: nat | FirstAbsent(fields, slots, k) ensures k == 0 {}
    } else {
      var rest := fields[1..];
      MissingIs(rest, slots);
      assert forall f :: f in fields <==> f == fields[0] || f in rest;
      forall k: nat | FirstAbsent(fields, slots, k) ensures FirstMissing(fields, slots) == [fields[k].id] {
        assert FirstAbsent(rest, slots, k - 1);
      }
      if FirstMissing(rest, slots) != [] {
        var k: nat :| FirstAbsent(rest, slots, k);
        assert FirstAbsent(fields, slots, k + 1);
      }
    }
  }

  /** Once the fields are read, a message is returned exactly when all the required fields of
      its type are there; otherwise the first absent one, in declaration order, is named. */
  lemma Refusal(S: Schema, j: nat, buf: seq<byte>, pos: nat, c: nat)
    requires Closed(S) && j < |S| && pos <= |buf| + 1 && DecodeLoop(S, j, buf, pos, c, map[]).Ok?
    ensures var Ok(slots, p) := DecodeLoop(S, j, buf, pos, c, map[]);
            if AllPresent(S[j].fields, slots) then DecodeMessage(S, j, buf, pos, c) == Ok(Message(slots), p)
            else exists k: nat :: FirstAbsent(S[j].fields, slots, k) && DecodeMessage(S, j, buf, pos, c) == Err(MissingRequired(S[j].fields[k].id))
  {
    hide DecodeLoop, FirstMissing, AllPresent, FirstAbsent;
    MissingIs(S[j].fields, DecodeLoop(S, j, buf, pos, c, map[]).val);
  }

  /** Well-formed records are decoded to the message they mean when that has all the required
      fields; otherwise decoding names the first absent one. */
  lemma RecordsRefused(S: Schema, j: nat, recs: seq<Record>)
    requires SchemaOk(S) && j < |S| && RecordsOk(S, j, recs) && |RecordsBytes(S, recs)| < TWO32
    ensures var slots := Fold(S, map[], recs);
            var r := Decoded(S, j, RecordsBytes(S, recs));
            if AllPresent(S[j].fields, slots) then r == Ok(Message(slots), |RecordsBytes(S, recs)|)
            else exists k: nat :: FirstAbsent(S[j].fields, slots, k) && r == Err(MissingRequired(S[j].fields[k].id))
  {
    hide RecordsBytes, Fold, FirstMissing, RecordsOk, Decoded, AllPresent, FirstAbsent;
    DecodesRecords(S, j, recs);
    MissingIs(S[j].fields, Fold(S, map[], recs));
  }

  /** The records without those of unknown fields, at every depth. */
  function Known(recs: seq<Record>): (r: seq<Record>)
    decreases recs
  {
    if recs == [] then [] else
      (match recs[0]
       case Unknown(_) => []
       case Sub(f, body) => [Sub(f, Known(body))]
       case Entry(f, items) => [Entry(f, KnownItems(items))]
       case _ => [recs[0]]) + Known(recs[1..])
  }

  function KnownItems(items: seq<Item>): (r: seq<Item>)
    decreases items
  {
    if items == [] then [] else
      (match items[0]
       case OtherItem(_) => []
       case BodyItem(body) => [BodyItem(Known(body))]
       case _ => [items[0]]) + KnownItems(items[1..])
  }

  /** Unknown fields do not change what records mean. */
  lemma {:induction false} KnownMeansSame(S: Schema, acc: Slots, recs: seq<Record>)
    ensures Fold(S, acc, Known(recs)) == Fold(S, acc, recs)
    decreases recs
  {
    if recs != [] {
      var rec, rest := recs[0], recs[1..];
      KnownMeansSame(S, Apply(S, acc, rec), rest);
      match rec
      case Unknown(_) => assert Known(recs) == Known(rest);
      case Sub(f, body) =>
        KnownMeansSame(S, map[], body);
        FoldFirst(S, acc, Sub(f, Known(body)), Known(rest));
      case Entry(f, items) =>
        KnownItemsMeanSame(S, f, items, Pair(Default(KeyType(f)), DefaultOf(f.ty)));
        FoldFirst(S, acc, Entry(f, KnownItems(items)), Known(rest));
      case _ => FoldFirst(S, acc, rec, Known(rest));
    }
  }

  lemma FoldFirst(S: Schema, acc: Slots, rec: Record, rest: seq<Record>)
    ensures Fold(S, acc, [rec] + rest) == Fold(S, Apply(S, acc, rec), rest)
  {
    assert ([rec] + rest)[1..] == rest;
  }

  lemma {:induction false} KnownItemsMeanSame(S: Schema, f: Field, items: seq<Item>, kv: Pair)
    ensures FoldItems(S, f, KnownItems(items), kv) == FoldItems(S, f, items, kv)
    decreases items
  {
    if items != [] {
      var item, rest := items[0], items[1..];
      KnownItemsMeanSame(S, f, rest, ApplyItem(S, f, item, kv));
      match item
      case OtherItem(_) => assert KnownItems(items) == KnownItems(rest);
      case BodyItem(body) =>
        KnownMeansSame(S, map[], body);
        assert ([BodyItem(Known(body))] + KnownItems(rest))[1..] == KnownItems(rest);
      case _ => assert ([item] + KnownItems(rest))[1..] == KnownItems(rest);
    }
  }

  /** No record of an unknown field, at any depth. */
  predicate NoUnknown(recs: seq<Record>)
    decreases recs
  {
    recs != [] ==>
      NoUnknown(recs[1..]) &&
      match recs[0]
      case Unknown(_) => false
      case Sub(_, body) => NoUnknown(body)
      case Entry(_, items) => NoUnknownItems(items)
      case _ => true
  }

  predicate NoUnknownItems(items: seq<Item>)
    decreases items
  {
    items != [] ==>
      NoUnknownItems(items[1..]) &&
      match items[0]
      case OtherItem(_) => false
      case BodyItem(body) => NoUnknown(body)
      case _ => true
  }

  lemma {:induction false} KnownHasNone(recs: seq<Record>)
    ensures NoUnknown(Known(recs))
    decreases recs
  {
    if recs != [] {
      var rest := Known(recs[1..]);
      KnownHasNone(recs[1..]);
      match recs[0]
      case Unknown(_) => assert Known(recs) == rest;
      case Sub(f, body) =>
        KnownHasNone(body);
        assert ([Sub(f, Known(body))] + rest)[1..] == rest;
      case Entry(f, items) =>
        KnownItemsHaveNone(items);
        assert ([Entry(f, KnownItems(items))] + rest)[1..] == rest;
      case _ => assert ([recs[0]] + rest)[1..] == rest;
    }
  }

  lemma {:induction false} KnownItemsHaveNone(items: seq<Item>)
    ensures NoUnknownItems(KnownItems(items))
    decreases items
  {
    if items != [] {
      var rest := KnownItems(items[1..]);
      KnownItemsHaveNone(items[1..]);
      match items[0]
      case OtherItem(_) => assert KnownItems(items) == rest;
      case BodyItem(body) =>
        KnownHasNone(body);
        assert ([BodyItem(Known(body))] + rest)[1..] == rest;
      case _ => assert ([items[0]] + rest)[1..] == rest;
    }
  }

  lemma {:induction false} KnownOk(S: Schema, j: nat, recs: seq<Record>)
    requires j < |S| && RecordsOk(S, j, recs)
    ensures RecordsOk(S, j, Known(recs))
    decreases recs, 0
  {
    if recs != [] {
      var rec, rest := recs[0], recs[1..];
      FirstOk(S, j, recs);
      KnownOk(S, j, rest);
      match rec
      case Unknown(_) => assert Known(recs) == Known(rest);
      case Sub(f, body) =>
        SubOk(S, j, f, body);
        KnownBodyOk(S, f.ty, body);
        SubOk(S, j, f, Known(body));
        OkFirst(S, j, Sub(f, Known(body)), Known(rest));
      case Entry(f, items) =>
        KnownItemsOk(S, f, items);
        OkFirst(S, j, Entry(f, KnownItems(items)), Known(rest));
      case _ => OkFirst(S, j, rec, Known(rest));
    }
  }

  lemma FirstOk(S: Schema, j: nat, recs: seq<Record>)
    requires j < |S| && RecordsOk(S, j, recs) && recs != []
    ensures RecordOk(S, j, recs[0]) && RecordsOk(S, j, recs[1..])
  {
    hide RecordOk;
  }

  lemma SubOk(S: Schema, j: nat, f: Field, body: seq<Record>)
    requires j < |S|
    ensures RecordOk(S, j, Sub(f, body)) <==> f in S[j].fields && !f.rule.MapOf? && BodyOk(S, f.ty, body)
  {
    hide BodyOk;
  }

  lemma {:induction false} KnownBodyOk(S: Schema, ty: FieldType, body: seq<Record>)
    requires BodyOk(S, ty, body)
    ensures BodyOk(S, ty, Known(body))
    decreases body, 1
  {
    hide RecordsOk, Fold, FirstMissing, Known;
    KnownOk(S, ty.index, body);
    KnownMeansSame(S, map[], body);
  }

  lemma OkFirst(S: Schema, j: nat, rec: Record, rest: seq<Record>)
    requires j < |S| && RecordOk(S, j, rec) && RecordsOk(S, j, rest)
    ensures RecordsOk(S, j, [rec] + rest)
  {
    hide RecordOk;
    assert ([rec] + rest)[1..] == rest;
  }

  lemma {:induction false} KnownItemsOk(S: Schema, f: Field, items: seq<Item>)
    requires ItemsOk(S, f, items)
    ensures ItemsOk(S, f, KnownItems(items))
    decreases items, 0
  {
    if items != [] {
      var item, rest := items[0], items[1..];
      FirstItemOk(S, f, items);
      KnownItemsOk(S, f, rest);
      match item
      case OtherItem(_) => assert KnownItems(items) == KnownItems(rest);
      case BodyItem(body) =>
        BodyItemOk(S, f, body);
        KnownBodyOk(S, f.ty, body);
        BodyItemOk(S, f, Known(body));
        ItemOkFirst(S, f, BodyItem(Known(body)), KnownItems(rest));
      case _ => ItemOkFirst(S, f, item, KnownItems(rest));
    }
  }

  lemma FirstItemOk(S: Schema, f: Field, items: seq<Item>)
    requires ItemsOk(S, f, items) && items != []
    ensures ItemOk(S, f, items[0]) && ItemsOk(S, f, items[1..])
  {
    hide ItemOk;
  }

  lemma ItemOkFirst(S: Schema, f: Field, item: Item, rest: seq<Item>)
    requires ItemOk(S, f, item) && ItemsOk(S, f, rest)
    ensures ItemsOk(S, f, [item] + rest)
  {
    hide ItemOk;
    assert ([item] + rest)[1..] == rest;
  }

  lemma BodyItemOk(S: Schema, f: Field, body: seq<Record>)
    ensures ItemOk(S, f, BodyItem(body)) <==> BodyOk(S, f.ty, body)
  {
    hide BodyOk;
  }

  lemma {:induction false} KnownShorter(S: Schema, recs: seq<Record>)
    requires |RecordsBytes(S, recs)| < TWO32
    ensures |RecordsBytes(S, Known(recs))| <= |RecordsBytes(S, recs)|
    decreases recs
  {
    hide Tag;
    if recs != [] {
      var rec, rest := recs[0], recs[1..];
      KnownShorter(S, rest);
      match rec
      case Unknown(_) => assert Known(recs) == Known(rest);
      case Sub(f, body) =>
        KnownShorter(S, body);
        DelimitedShorter(RecordsBytes(S, Known(body)), RecordsBytes(S, body));
        BytesFirst(S, Sub(f, Known(body)), Known(rest));
      case Entry(f, items) =>
        KnownItemsShorter(S, f, items);
        DelimitedShorter(ItemsBytes(S, f, KnownItems(items)), ItemsBytes(S, f, items));
        BytesFirst(S, Entry(f, KnownItems(items)), Known(rest));
      case _ => BytesFirst(S, rec, Known(rest));
    }
  }

  lemma BytesFirst(S: Schema, rec: Record, rest: seq<Record>)
    ensures RecordsBytes(S, [rec] + rest) == RecordBytes(S, rec) + RecordsBytes(S, rest)
  {
    hide RecordBytes;
    assert ([rec] + rest)[1..] == rest;
  }

  lemma ItemBytesFirst(S: Schema, f: Field, item: Item, rest: seq<Item>)
    ensures ItemsBytes(S, f, [item] + rest) == ItemBytes(S, f, item) + ItemsBytes(S, f, rest)
  {
    hide ItemBytes;
    assert ([item] + rest)[1..] == rest;
  }

  lemma {:induction false} KnownItemsShorter(S: Schema, f: Field, items: seq<Item>)
    requires |ItemsBytes(S, f, items)| < TWO32
    ensures |ItemsBytes(S, f, KnownItems(items))| <= |ItemsBytes(S, f, items)|
    decreases items
  {
    hide Tag;
    if items != [] {
      var item, rest := items[0], items[1..];
      KnownItemsShorter(S, f, rest);
      match item
      case OtherItem(_) => assert KnownItems(items) == KnownItems(rest);
      case BodyItem(body) =>
        KnownShorter(S, body);
        DelimitedShorter(RecordsBytes(S, Known(body)), RecordsBytes(S, body));
        ItemBytesFirst(S, f, BodyItem(Known(body)), KnownItems(rest));
      case _ => ItemBytesFirst(S, f, item, KnownItems(rest));
    }
  }

  lemma DelimitedShorter(a: seq<byte>, b: seq<byte>)
    requires |a| <= |b| < TWO32
    ensures |Delimited(a)| <= |Delimited(b)|
  {
    hide Varint;
    VarintGrows(|a|, |b|);
  }

  lemma {:induction false} VarintGrows(a: nat, b: nat)
    requires a <= b
    ensures |Varint(a)| <= |Varint(b)|
  {
    if a >= 128 { VarintGrows(a / 128, b / 128); }
  }

  /** What is left of a decoded result when positions do not matter. */
  function Answer(r: Read<Message>): (o: Readers.Outcome<Message>) {
    if r.Ok? then Return(r.val) else Throw(r.error)
  }

  /** Unknown fields inserted anywhere, nested groups and submessages included, change
      neither the decoded message nor whether decoding succeeds. */
  lemma UnknownFieldsIgnored(S: Schema, j: nat, recs: seq<Record>)
    requires SchemaOk(S) && j < |S| && RecordsOk(S, j, recs) && |RecordsBytes(S, recs)| < TWO32
    ensures NoUnknown(Known(recs))
    ensures Answer(Decoded(S, j, RecordsBytes(S, recs))) == Answer(Decoded(S, j, RecordsBytes(S, Known(recs))))
  {
    KnownHasNone(recs);
    hide RecordsBytes, Fold, FirstMissing, RecordsOk, Decoded, Known;
    KnownOk(S, j, recs);
    KnownShorter(S, recs);
    DecodesRecords(S, j, recs);
    DecodesRecords(S, j, Known(recs));
    KnownMeansSame(S, map[], recs);
  }

  // One byte too far.

  /** Decoding a buffer ends inside it, or one byte behind it when its last three bytes are
      continuation bytes. */
  lemma EndsInside(S: Schema, j: nat, buf: seq<byte>)
    requires Closed(S) && j < |S| && Decoded(S, j, buf).Ok?
    ensures var p := Decoded(S, j, buf).pos;
            p <= |buf| + 1 && (p == |buf| + 1 ==> |buf| >= 3 && forall i :: |buf| - 3 <= i < |buf| ==> buf[i] >= 128)
  {
    hide DecodeMessage;
  }

  /** A last field that is a 64-bit varint of three continuation bytes makes the decoder stop
      one byte behind the end, without an error. */
  lemma LastFieldOverruns(S: Schema, j: nat, f: Field, buf: seq<byte>, pos: nat, acc: Slots)
    requires SchemaOk(S) && j < |S| && f in S[j].fields && !f.rule.MapOf? && f.ty.Basic? && Wide(f.ty.scalar)
    requires Holds(buf, pos, Tag(f.id, 0)) && pos + |Tag(f.id, 0)| + 3 == |buf| && EndsOpen(buf)
    ensures var r := DecodeLoop(S, j, buf, pos, |buf|, acc); r.Ok? && r.pos == |buf| + 1
  {
    hide Tag, Holds, FieldById, DecodeField, EndsOpen, Overruns, Wide;
    TagRead(f.id, 0, buf, pos);
    WideField(S, j, f, buf, pos + |Tag(f.id, 0)|, acc);
  }

  lemma WideField(S: Schema, j: nat, f: Field, buf: seq<byte>, pos: nat, acc: Slots)
    requires SchemaOk(S) && j < |S| && f in S[j].fields && !f.rule.MapOf? && f.ty.Basic? && Wide(f.ty.scalar)
    requires pos + 3 == |buf| && EndsOpen(buf)
    ensures var r := DecodeField(S, j, buf, pos, f.id * 8, acc); r.Ok? && r.pos == |buf| + 1
  {
    hide FieldById, EndsOpen, Overruns, ReadScalar, PackedLoop, EntryLoop, DecodeMessage, SkipType, ReadU32;
    FieldFound(S[j].fields, f);
    WideEnd(f.ty.scalar, buf, pos);
    assert f.id * 8 / 8 == f.id && f.id * 8 % 8 == 0;
  }

  lemma WideEnd(s: Scalar, buf: seq<byte>, pos: nat)
    requires Wide(s) && pos + 3 == |buf| && EndsOpen(buf)
    ensures var r := ReadScalar(s, buf, pos); r.Ok? && r.pos == |buf| + 1
  {
    ThreeOpen(buf, pos);
    hide ReadU64, EndsOpen;
    assert ReadInt64(buf, pos, true).Ok? && ReadInt64(buf, pos, false).Ok? && ReadSInt64(buf, pos).Ok?;
  }

  lemma ThreeOpen(buf: seq<byte>, pos: nat)
    requires pos + 3 == |buf| && EndsOpen(buf)
    ensures ReadU64(buf, pos).Ok?
  {
    assert Run(buf, pos, 3) == 1 + Run(buf, pos + 1, 2) && Run(buf, pos + 1, 2) == 1 + Run(buf, pos + 2, 1);
  }
}
