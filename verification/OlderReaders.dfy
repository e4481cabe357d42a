/** What a reader makes of a message whose type has fields that the reader does not know, or
    packs its lists in the other way. */
module OlderReaders {
  import opened Bits
  import opened Buffers
  import opened Varints
  import opened Long
  import opened Utf8Codec
  import opened Readers
  import opened Writers
  import opened Messages
  import opened Wire
  import opened Decoding
  import opened DecodingTheorems
  import opened Encoding
  import opened EncodingTheorems

  // Every record is a field body of its wire type.

  /** A scalar as a field that no schema knows. */
  function RawScalar(s: Scalar, v: Value): (r: Raw) {
    match WireType(s)
    case 0 => RawVarint(ScalarBytes(s, v))
    case 1 => RawFixed64(ScalarBytes(s, v))
    case 5 => RawFixed32(ScalarBytes(s, v))
    case _ => RawDelimited(if v.Text? then Utf8(v.s) else if v.Data? then v.bytes else [])
  }

  function RawRecord(S: Schema, rec: Record): (r: RawField)
    decreases rec
  {
    match rec
    case Leaf(f, v) => RawField(f.id, RawScalar(ScalarOf(f.ty), v))
    case Packed(f, vs) => RawField(f.id, RawDelimited(ScalarsBytes(ScalarOf(f.ty), vs)))
    case Sub(f, body) =>
      RawField(f.id, if IsGroup(S, f.ty) then RawGroup(RawRecords(S, body)) else RawDelimited(RecordsBytes(S, body)))
    case Entry(f, items) => RawField(f.id, RawDelimited(ItemsBytes(S, f, items)))
    case Unknown(field) => field
  }

  function RawRecords(S: Schema, recs: seq<Record>): (r: seq<RawField>)
    decreases recs
  {
    if recs == [] then [] else [RawRecord(S, recs[0])] + RawRecords(S, recs[1..])
  }

  lemma {:induction false} VarintEnds(n: nat)
    ensures var b := Varint(n); b[|b| - 1] < 128 && forall i :: 0 <= i < |b| - 1 ==> b[i] >= 128
  {
    if n >= 128 {
      VarintEnds(n / 128);
      var b, t := Varint(n), Varint(n / 128);
      forall i | 0 <= i < |b| - 1 ensures b[i] >= 128 {
        if i > 0 { assert b[i] == t[i - 1]; }
      }
    }
  }

  /** The wire type of a scalar is that of its bytes. */
  lemma ScalarIsRaw(id: nat, s: Scalar, v: Value)
    requires InRange(s, v) && id < MAX_ID
    ensures var f := RawField(id, RawScalar(s, v));
            RawOk(f) && RawType(f.raw) == WireType(s) && RawBytes(f) == ScalarBytes(s, v)
  {
    hide Varint, Utf8;
    match s
    case Int32 | Int64 | UInt64 => VarintEnds(v.n % TWO64);
    case UInt32 => VarintEnds(ToUint32(v.n));
    case SInt32 | SInt64 => VarintEnds(ZigZag(v.n));
    case _ =>
  }

  /** skipType, given the wire type of a scalar, ends exactly behind the bytes of any value
      of it, wherever these stand. */
  lemma ScalarSkipped(s: Scalar, v: Value, buf: seq<byte>, pos: nat)
    requires InRange(s, v) && |ScalarBytes(s, v)| < TWO32 && Holds(buf, pos, ScalarBytes(s, v))
    ensures SkipType(buf, pos, WireType(s)) == Ok((), pos + |ScalarBytes(s, v)|)
  {
    hide InRange, ScalarBytes, RawBytes, RawOk, Holds, SkipType;
    ScalarIsRaw(0, s, v);
    SkipRaw(RawField(0, RawScalar(s, v)), buf, pos);
  }

  lemma {:induction false} RecordIsRaw(S: Schema, j: nat, rec: Record)
    requires SchemaOk(S) && j < |S| && RecordOk(S, j, rec)
    ensures var f := RawRecord(S, rec);
            RawOk(f) && RawFieldBytes(f) == RecordBytes(S, rec)
    decreases rec
  {
    hide InRange, ScalarBytes, RawScalar, Tag, Delimited, AllInRange, FirstMissing, Fold, RecordsOk, ItemsOk;
    match rec
    case Leaf(f, v) => ScalarIsRaw(f.id, f.ty.scalar, v);
    case Packed(f, vs) =>
    case Sub(f, body) => if IsGroup(S, f.ty) { RecordsAreRaw(S, f.ty.index, body); }
    case Entry(f, items) =>
    case Unknown(field) =>
  }

  lemma {:induction false} RecordsAreRaw(S: Schema, j: nat, recs: seq<Record>)
    requires SchemaOk(S) && j < |S| && RecordsOk(S, j, recs)
    ensures RawsOk(RawRecords(S, recs)) && RawsBytes(RawRecords(S, recs)) == RecordsBytes(S, recs)
    decreases recs
  {
    hide RecordBytes, RawFieldBytes, RecordOk, RawOk, RawRecord;
    if recs != [] {
      RecordIsRaw(S, j, recs[0]);
      RecordsAreRaw(S, j, recs[1..]);
      assert RawRecords(S, recs)[1..] == RawRecords(S, recs[1..]);
    }
  }

  // A schema that lacks fields.

  /** The same field but for how a list is packed, and maybe no longer required. */
  predicate Alike(g: Field, f: Field) {
    && g.id == f.id && g.ty == f.ty
    && (g.rule == f.rule || (g.rule.Repeated? && f.rule.Repeated?) || (g.rule.Optional? && f.rule.Required?))
  }

  /** T has the types of S, each with some of its fields only, up to packing and to fields
      that it does not require. */
  ghost predicate Lacks(T: Schema, S: Schema) {
    && |T| == |S|
    && (forall j :: 0 <= j < |S| ==> T[j].group == S[j].group)
    && (forall j, g :: 0 <= j < |S| && g in T[j].fields ==>
          FieldById(S[j].fields, g.id).Found? && Alike(g, FieldById(S[j].fields, g.id).f))
  }

  predicate Knows(T: Schema, j: nat, f: Field) {
    j < |T| && FieldById(T[j].fields, f.id).Found?
  }

  /** What T has for a field of S. */
  function Own(T: Schema, j: nat, f: Field): (g: Field) {
    if Knows(T, j, f) then FieldById(T[j].fields, f.id).f else f
  }

  /** The records as T sees them: those of fields that it lacks are unknown. */
  function Seen(T: Schema, S: Schema, j: nat, recs: seq<Record>): (r: seq<Record>)
    decreases recs
  {
    if recs == [] then [] else [SeenRecord(T, S, j, recs[0])] + Seen(T, S, j, recs[1..])
  }

  function SeenRecord(T: Schema, S: Schema, j: nat, rec: Record): (r: Record)
    decreases rec
  {
    match rec
    case Leaf(f, v) => if Knows(T, j, f) then Leaf(Own(T, j, f), v) else Unknown(RawRecord(S, rec))
    case Packed(f, vs) => if Knows(T, j, f) then Packed(Own(T, j, f), vs) else Unknown(RawRecord(S, rec))
    case Sub(f, body) =>
      if Knows(T, j, f) && f.ty.Ref? then Sub(Own(T, j, f), Seen(T, S, f.ty.index, body)) else Unknown(RawRecord(S, rec))
    case Entry(f, items) => if Knows(T, j, f) then Entry(Own(T, j, f), SeenItems(T, S, f, items)) else Unknown(RawRecord(S, rec))
    case Unknown(_) => rec
  }

  function SeenItems(T: Schema, S: Schema, f: Field, items: seq<Item>): (r: seq<Item>)
    decreases items
  {
    if items == [] then [] else [SeenItem(T, S, f, items[0])] + SeenItems(T, S, f, items[1..])
  }

  function SeenItem(T: Schema, S: Schema, f: Field, item: Item): (r: Item)
    decreases item
  {
    match item
    case BodyItem(body) => if f.ty.Ref? then BodyItem(Seen(T, S, f.ty.index, body)) else item
    case _ => item
  }

  /** The message without the fields that T lacks, at every depth. */
  function Without(T: Schema, j: nat, m: Message): (r: Message)
    decreases m
  {
    Message(map id | id in m.slots && j < |T| && FieldById(T[j].fields, id).Found?
                   :: WithoutSlot(T, FieldById(T[j].fields, id).f.ty, m.slots[id]))
  }

  function WithoutSlot(T: Schema, ty: FieldType, slot: Slot): (r: Slot)
    decreases slot
  {
    match slot
    case One(v) => One(WithoutValue(T, ty, v))
    case Many(vs) => Many(WithoutValues(T, ty, vs))
    case Dict(es) => Dict(WithoutEntries(T, ty, es))
  }

  function WithoutValue(T: Schema, ty: FieldType, v: Value): (r: Value)
    decreases v
  {
    if ty.Ref? && v.Nested? then Nested(Without(T, ty.index, v.m)) else v
  }

  function WithoutValues(T: Schema, ty: FieldType, vs: seq<Value>): (r: seq<Value>)
    decreases vs
  {
    if vs == [] then [] else [WithoutValue(T, ty, vs[0])] + WithoutValues(T, ty, vs[1..])
  }

  function WithoutEntries(T: Schema, ty: FieldType, es: seq<Pair>): (r: seq<Pair>)
    decreases es
  {
    if es == [] then [] else [WithoutEntry(T, ty, es[0])] + WithoutEntries(T, ty, es[1..])
  }

  function WithoutEntry(T: Schema, ty: FieldType, e: Pair): (r: Pair)
    decreases e
  {
    Pair(e.key, WithoutValue(T, ty, e.val))
  }

  function Left(T: Schema, j: nat, slots: Slots): (r: Slots) {
    Without(T, j, Message(slots)).slots
  }

  // Both schemas write the same bytes.

  lemma {:induction false} SeenBytes(T: Schema, S: Schema, j: nat, recs: seq<Record>)
    requires Lacks(T, S) && SchemaOk(S) && SchemaOk(T) && j < |S| && RecordsOk(S, j, recs)
    ensures RecordsBytes(T, Seen(T, S, j, recs)) == RecordsBytes(S, recs)
    decreases recs, 0
  {
    hide RecordBytes, RecordOk, SeenRecord, SchemaOk, Lacks;
    if recs != [] {
      SeenRecordBytes(T, S, j, recs[0]);
      SeenBytes(T, S, j, recs[1..]);
      BytesFirst(T, SeenRecord(T, S, j, recs[0]), Seen(T, S, j, recs[1..]));
    }
  }

  lemma {:induction false} SeenRecordBytes(T: Schema, S: Schema, j: nat, rec: Record)
    requires Lacks(T, S) && SchemaOk(S) && SchemaOk(T) && j < |S| && RecordOk(S, j, rec)
    ensures RecordBytes(T, SeenRecord(T, S, j, rec)) == RecordBytes(S, rec)
    decreases rec
  {
    hide InRange, ScalarBytes, RawRecord, Tag, Delimited, AllInRange, FirstMissing, Fold, RecordsOk, ItemsOk, RawFieldBytes, RawOk,
      FieldById, SchemaOk, Lacks, Knows, Own, ItemsBytes;
    RecordIsRaw(S, j, rec);
    if !rec.Unknown? { LeftKnows(T, S, j, rec.f); }
    assert forall ty :: IsGroup(S, ty) <==> IsGroup(T, ty) by { SameGroups(T, S); }
    match rec
    case Sub(f, body) => SeenBytes(T, S, f.ty.index, body);
    case Entry(f, items) =>
      SeenItemsBytes(T, S, f, items);
      if Knows(T, j, f) { AlikeItems(T, Own(T, j, f), f, SeenItems(T, S, f, items)); }
    case _ =>
  }

  lemma SameGroups(T: Schema, S: Schema)
    requires Lacks(T, S)
    ensures forall ty :: IsGroup(S, ty) <==> IsGroup(T, ty)
  {}

  lemma {:induction false} AlikeItems(T: Schema, g: Field, f: Field, items: seq<Item>)
    requires Alike(g, f)
    ensures ItemsBytes(T, g, items) == ItemsBytes(T, f, items)
    ensures ItemsOk(T, g, items) <==> ItemsOk(T, f, items)
    ensures forall kv: Pair :: FoldItems(T, g, items, kv) == FoldItems(T, f, items, kv)
    decreases items
  {
    hide InRange, ScalarBytes, Tag, Delimited, Fold, BodyOk, RawFieldBytes, RawOk, RecordsBytes;
    if items != [] { AlikeItems(T, g, f, items[1..]); }
  }

  lemma {:induction false} SeenItemsBytes(T: Schema, S: Schema, f: Field, items: seq<Item>)
    requires Lacks(T, S) && SchemaOk(S) && SchemaOk(T) && ItemsOk(S, f, items)
    ensures ItemsBytes(T, f, SeenItems(T, S, f, items)) == ItemsBytes(S, f, items)
    decreases items
  {
    hide InRange, ScalarBytes, Tag, Delimited, FirstMissing, Fold, RecordsOk, RawFieldBytes, RawOk, SchemaOk, Lacks, BodyOk;
    if items != [] {
      SeenItemBytes(T, S, f, items[0]);
      SeenItemsBytes(T, S, f, items[1..]);
      ItemBytesFirst(T, f, SeenItem(T, S, f, items[0]), SeenItems(T, S, f, items[1..]));
    }
  }

  lemma {:induction false} SeenItemBytes(T: Schema, S: Schema, f: Field, item: Item)
    requires Lacks(T, S) && SchemaOk(S) && SchemaOk(T) && ItemOk(S, f, item)
    ensures ItemBytes(T, f, SeenItem(T, S, f, item)) == ItemBytes(S, f, item)
    decreases item
  {
    hide InRange, ScalarBytes, Tag, Delimited, FirstMissing, Fold, RecordsOk, RawFieldBytes, RawOk, SchemaOk, Lacks;
    if item.BodyItem? { SeenBytes(T, S, f.ty.index, item.body); }
  }

  // Both schemas mean the same, up to the fields that one lacks.

  lemma {:induction false} LeftKnows(T: Schema, S: Schema, j: nat, f: Field)
    requires Lacks(T, S) && SchemaOk(S) && SchemaOk(T) && j < |S| && f in S[j].fields
    ensures j < |T| && FieldById(T[j].fields, f.id) == if Knows(T, j, f) then Found(Own(T, j, f)) else NotFound
    ensures Alike(Own(T, j, f), f) && (Knows(T, j, f) ==> Own(T, j, f) in T[j].fields)
  {
    hide FieldById, DistinctIds, Closed, Alike;
    FieldFound(S[j].fields, f);
    AlikeItself(f);
  }

  lemma AlikeItself(f: Field)
    ensures Alike(f, f)
  {}

  lemma StillUnknown(T: Schema, S: Schema, j: nat, id: nat)
    requires Lacks(T, S) && SchemaOk(S) && j < |S| && FieldById(S[j].fields, id) == NotFound
    ensures FieldById(T[j].fields, id) == NotFound
  {
    hide FieldById, Alike;
    forall g | g in T[j].fields ensures g.id != id {
      assert FieldById(S[j].fields, g.id).Found?;
    }
    NotFoundMeans(T[j].fields, id);
  }

  /** A slot of a field that T knows. */
  lemma LeftSet(T: Schema, j: nat, slots: Slots, f: Field, slot: Slot)
    requires j < |T| && FieldById(T[j].fields, f.id) == Found(f)
    ensures Left(T, j, slots[f.id := slot]) == Left(T, j, slots)[f.id := WithoutSlot(T, f.ty, slot)]
  {
    hide FieldById, WithoutSlot;
  }

  lemma LeftDropped(T: Schema, j: nat, slots: Slots, id: nat, slot: Slot)
    requires j < |T| && FieldById(T[j].fields, id) == NotFound
    ensures Left(T, j, slots[id := slot]) == Left(T, j, slots)
  {
    hide FieldById, WithoutSlot;
  }

  lemma LeftAt(T: Schema, j: nat, slots: Slots, f: Field)
    requires j < |T| && FieldById(T[j].fields, f.id) == Found(f)
    ensures var r := Left(T, j, slots);
            (f.id in r <==> f.id in slots) && (f.id in r ==> r[f.id] == WithoutSlot(T, f.ty, slots[f.id]))
  {
    hide FieldById, WithoutSlot;
  }

  lemma NoneWithout(T: Schema, ty: FieldType)
    ensures WithoutValues(T, ty, []) == [] && WithoutEntries(T, ty, []) == []
  {}

  lemma LeftElements(T: Schema, j: nat, slots: Slots, f: Field)
    requires j < |T| && FieldById(T[j].fields, f.id) == Found(f)
    ensures Elements(Left(T, j, slots), f.id) == WithoutValues(T, f.ty, Elements(slots, f.id))
    ensures Entries(Left(T, j, slots), f.id) == WithoutEntries(T, f.ty, Entries(slots, f.id))
  {
    hide FieldById, WithoutValue, WithoutValues, WithoutEntries, Left;
    NoneWithout(T, f.ty);
    LeftAt(T, j, slots, f);
  }

  lemma {:induction false} WithoutAppend(T: Schema, ty: FieldType, a: seq<Value>, b: seq<Value>)
    ensures WithoutValues(T, ty, a + b) == WithoutValues(T, ty, a) + WithoutValues(T, ty, b)
    decreases |a|
  {
    hide WithoutValue;
    if a == [] {
      assert a + b == b;
    } else {
      assert (a + b)[1..] == a[1..] + b;
      WithoutAppend(T, ty, a[1..], b);
    }
  }

  lemma {:induction false} WithoutBasic(T: Schema, ty: FieldType, vs: seq<Value>)
    requires ty.Basic?
    ensures WithoutValues(T, ty, vs) == vs
  {
    if vs != [] { WithoutBasic(T, ty, vs[1..]); }
  }

  lemma {:induction false} WithoutPut(T: Schema, ty: FieldType, es: seq<Pair>, k: Value, v: Value)
    ensures WithoutEntries(T, ty, PutEntry(es, k, v)) == PutEntry(WithoutEntries(T, ty, es), k, WithoutValue(T, ty, v))
  {
    hide WithoutValue;
    var e := WithoutEntry(T, ty, Pair(k, v));
    if es == [] {
      assert WithoutEntries(T, ty, [Pair(k, v)]) == [e] + WithoutEntries(T, ty, []);
    } else {
      var w := WithoutEntries(T, ty, es);
      assert w == [WithoutEntry(T, ty, es[0])] + WithoutEntries(T, ty, es[1..]);
      assert w[1..] == WithoutEntries(T, ty, es[1..]) && w[0].key == es[0].key;
      if es[0].key == k {
        assert PutEntry(es, k, v)[1..] == es[1..];
      } else {
        WithoutPut(T, ty, es[1..], k, v);
        assert PutEntry(es, k, v)[1..] == PutEntry(es[1..], k, v);
      }
    }
  }

  /** Adding a value and leaving out fields commute. */
  lemma LeftAdd(T: Schema, j: nat, slots: Slots, f: Field, v: Value)
    requires j < |T| && FieldById(T[j].fields, f.id) == Found(f)
    ensures Left(T, j, AddValue(slots, f, v)) == AddValue(Left(T, j, slots), f, WithoutValue(T, f.ty, v))
  {
    hide FieldById, Left, WithoutValue, Elements;
    LeftElements(T, j, slots, f);
    var vs := Elements(slots, f.id);
    WithoutAppend(T, f.ty, vs, [v]);
    assert [v][1..] == [] && WithoutValues(T, f.ty, [v]) == [WithoutValue(T, f.ty, v)];
    LeftSet(T, j, slots, f, if f.rule.Repeated? then Many(vs + [v]) else One(v));
  }

  lemma LeftPacked(T: Schema, j: nat, slots: Slots, f: Field, vs: seq<Value>)
    requires j < |T| && FieldById(T[j].fields, f.id) == Found(f) && f.ty.Basic?
    ensures Left(T, j, slots[f.id := Many(Elements(slots, f.id) + vs)]) == Left(T, j, slots)[f.id := Many(Elements(Left(T, j, slots), f.id) + vs)]
  {
    hide FieldById, Left, WithoutValue, Elements, WithoutValues;
    LeftElements(T, j, slots, f);
    LeftSet(T, j, slots, f, Many(Elements(slots, f.id) + vs));
    WithoutBasic(T, f.ty, Elements(slots, f.id) + vs);
    WithoutBasic(T, f.ty, Elements(slots, f.id));
  }

  lemma LeftPut(T: Schema, j: nat, slots: Slots, f: Field, k: Value, v: Value)
    requires j < |T| && FieldById(T[j].fields, f.id) == Found(f)
    ensures Left(T, j, slots[f.id := Dict(PutEntry(Entries(slots, f.id), k, v))])
            == Left(T, j, slots)[f.id := Dict(PutEntry(Entries(Left(T, j, slots), f.id), k, WithoutValue(T, f.ty, v)))]
  {
    hide FieldById, Left, WithoutValue, Entries, WithoutEntries, PutEntry;
    LeftElements(T, j, slots, f);
    WithoutPut(T, f.ty, Entries(slots, f.id), k, v);
    LeftSet(T, j, slots, f, Dict(PutEntry(Entries(slots, f.id), k, v)));
  }

  lemma {:induction false} SeenFold(T: Schema, S: Schema, j: nat, acc: Slots, recs: seq<Record>)
    requires Lacks(T, S) && SchemaOk(S) && SchemaOk(T) && j < |S| && RecordsOk(S, j, recs)
    ensures Fold(T, Left(T, j, acc), Seen(T, S, j, recs)) == Left(T, j, Fold(S, acc, recs))
    decreases recs, 0
  {
    hide Apply, RecordOk, SeenRecord, SchemaOk, Lacks, Left;
    if recs != [] {
      SeenApply(T, S, j, acc, recs[0]);
      SeenFold(T, S, j, Apply(S, acc, recs[0]), recs[1..]);
      FoldFirst(T, Left(T, j, acc), SeenRecord(T, S, j, recs[0]), Seen(T, S, j, recs[1..]));
    }
  }

  lemma {:induction false} SeenApply(T: Schema, S: Schema, j: nat, acc: Slots, rec: Record)
    requires Lacks(T, S) && SchemaOk(S) && SchemaOk(T) && j < |S| && RecordOk(S, j, rec)
    ensures Apply(T, Left(T, j, acc), SeenRecord(T, S, j, rec)) == Left(T, j, Apply(S, acc, rec))
    decreases rec
  {
    hide InRange, RawRecord, AllInRange, FirstMissing, Fold, RecordsOk, ItemsOk, RawOk, SchemaOk, Lacks, Left, FieldById, Elements, Entries,
      AddValue, Knows, Own, PutEntry, FoldItems;
    SameSize(T, S);
    var g := if rec.Unknown? then Field(0, Optional, Ref(0)) else Own(T, j, rec.f);
    if !rec.Unknown? {
      LeftKnows(T, S, j, rec.f);
      if !Knows(T, j, rec.f) {
        SeenDropped(T, S, j, acc, rec);
        return;
      }
    }
    match rec
    case Leaf(f, v) =>
      AlikeAdd(acc, g, f, AsRead(v));
      LeftAdd(T, j, acc, g, AsRead(v));
    case Packed(f, vs) => LeftPacked(T, j, acc, g, vs);
    case Sub(f, body) =>
      AlikeAdd(acc, g, f, Nested(Message(Fold(S, map[], body))));
      LeftAdd(T, j, acc, g, Nested(Message(Fold(S, map[], body))));
      SeenFold(T, S, f.ty.index, map[], body);
      LeftNone(T, f.ty.index);
      LeftIs(T, f.ty.index, Fold(S, map[], body));
    case Entry(f, items) =>
      var kv := Pair(Default(KeyType(f)), DefaultOf(f.ty));
      var Pair(k, v) := FoldItems(S, f, items, kv);
      LeftPut(T, j, acc, g, k, v);
      SeenFoldItems(T, S, f, items, kv);
      AlikeItems(T, g, f, SeenItems(T, S, f, items));
    case Unknown(field) => StillUnknown(T, S, j, field.id);
  }

  lemma AlikeAdd(slots: Slots, g: Field, f: Field, v: Value)
    requires Alike(g, f)
    ensures AddValue(slots, g, v) == AddValue(slots, f, v)
  {}

  lemma SeenDropped(T: Schema, S: Schema, j: nat, acc: Slots, rec: Record)
    requires j < |T| && !rec.Unknown? && !Knows(T, j, rec.f) && FieldById(T[j].fields, rec.f.id) == NotFound
    ensures Apply(T, Left(T, j, acc), SeenRecord(T, S, j, rec)) == Left(T, j, Apply(S, acc, rec))
  {
    hide FieldById, Left, Elements, Entries, PutEntry, FoldItems, Fold, Knows;
    var acc' := Apply(S, acc, rec);
    assert rec.f.id in acc' && acc' == acc[rec.f.id := acc'[rec.f.id]];
    LeftDropped(T, j, acc, rec.f.id, acc'[rec.f.id]);
  }

  lemma SameSize(T: Schema, S: Schema)
    requires Lacks(T, S)
    ensures |T| == |S|
  {}

  lemma LeftNone(T: Schema, j: nat)
    ensures Left(T, j, map[]) == map[]
  {}

  lemma {:induction false} SeenFoldItems(T: Schema, S: Schema, f: Field, items: seq<Item>, kv: Pair)
    requires Lacks(T, S) && SchemaOk(S) && SchemaOk(T) && ItemsOk(S, f, items)
    ensures FoldItems(T, f, SeenItems(T, S, f, items), WithoutEntry(T, f.ty, kv)) == WithoutEntry(T, f.ty, FoldItems(S, f, items, kv))
    decreases items
  {
    hide ItemOk, SchemaOk, Lacks, ApplyItem, SeenItem, WithoutEntry;
    if items != [] {
      SeenApplyItem(T, S, f, items[0], kv);
      SeenFoldItems(T, S, f, items[1..], ApplyItem(S, f, items[0], kv));
      assert ([SeenItem(T, S, f, items[0])] + SeenItems(T, S, f, items[1..]))[1..] == SeenItems(T, S, f, items[1..]);
    }
  }

  lemma {:induction false} SeenApplyItem(T: Schema, S: Schema, f: Field, item: Item, kv: Pair)
    requires Lacks(T, S) && SchemaOk(S) && SchemaOk(T) && ItemOk(S, f, item)
    ensures ApplyItem(T, f, SeenItem(T, S, f, item), WithoutEntry(T, f.ty, kv)) == WithoutEntry(T, f.ty, ApplyItem(S, f, item, kv))
    decreases item
  {
    hide InRange, FirstMissing, Fold, RecordsOk, RawOk, SchemaOk, Lacks, Without;
    if item.BodyItem? {
      SeenFold(T, S, f.ty.index, map[], item.body);
      LeftNone(T, f.ty.index);
      LeftIs(T, f.ty.index, Fold(S, map[], item.body));
    }
  }

  lemma LeftIs(T: Schema, j: nat, slots: Slots)
    ensures Without(T, j, Message(slots)) == Message(Left(T, j, slots))
  {
    hide WithoutSlot;
  }

  // The records are well-formed for the reader.

  lemma {:induction false} SeenOk(T: Schema, S: Schema, j: nat, recs: seq<Record>)
    requires Lacks(T, S) && SchemaOk(S) && SchemaOk(T) && j < |S| && RecordsOk(S, j, recs)
    ensures j < |T| && RecordsOk(T, j, Seen(T, S, j, recs))
    decreases recs, 0
  {
    hide RecordOk, SeenRecord, SchemaOk, Lacks;
    SameSize(T, S);
    if recs != [] {
      SeenRecordOk(T, S, j, recs[0]);
      SeenOk(T, S, j, recs[1..]);
      OkFirst(T, j, SeenRecord(T, S, j, recs[0]), Seen(T, S, j, recs[1..]));
    }
  }

  lemma {:induction false} SeenRecordOk(T: Schema, S: Schema, j: nat, rec: Record)
    requires Lacks(T, S) && SchemaOk(S) && SchemaOk(T) && j < |S| && RecordOk(S, j, rec)
    ensures j < |T| && RecordOk(T, j, SeenRecord(T, S, j, rec))
    decreases rec
  {
    hide InRange, RawRecord, AllInRange, ItemsOk, RawOk, SchemaOk, Lacks, FieldById, BodyOk, Knows, Own;
    SameSize(T, S);
    if rec.Unknown? {
      StillUnknown(T, S, j, rec.field.id);
      return;
    }
    LeftKnows(T, S, j, rec.f);
    RecordIsRaw(S, j, rec);
    assert RawRecord(S, rec).id == rec.f.id by { RawId(S, rec); }
    match rec
    case Sub(f, body) =>
      if Knows(T, j, f) {
        SeenBodyOk(T, S, f.ty, body);
        SubOk(T, j, Own(T, j, f), Seen(T, S, f.ty.index, body));
      }
    case Entry(f, items) =>
      if Knows(T, j, f) {
        SeenItemsOk(T, S, f, items);
        AlikeItems(T, Own(T, j, f), f, SeenItems(T, S, f, items));
      }
    case _ =>
  }

  lemma RawId(S: Schema, rec: Record)
    requires !rec.Unknown?
    ensures RawRecord(S, rec).id == rec.f.id
  {}

  lemma {:induction false} SeenBodyOk(T: Schema, S: Schema, ty: FieldType, body: seq<Record>)
    requires Lacks(T, S) && SchemaOk(S) && SchemaOk(T) && BodyOk(S, ty, body)
    ensures ty.Ref? && BodyOk(T, ty, Seen(T, S, ty.index, body))
    decreases body, 1
  {
    hide RecordsOk, SchemaOk, Lacks, Fold, Left, FirstMissing, Seen;
    SeenOk(T, S, ty.index, body);
    SeenFold(T, S, ty.index, map[], body);
    LeftNone(T, ty.index);
    LeftPresent(T, S, ty.index, Fold(S, map[], body));
  }

  lemma OfWriter(T: Schema, S: Schema, j: nat, g: Field)
    requires Lacks(T, S) && SchemaOk(S) && SchemaOk(T) && j < |S| && g in T[j].fields
    ensures var f := FieldById(S[j].fields, g.id); f.Found? && f.f in S[j].fields && f.f.id == g.id && Alike(g, f.f)
    ensures FieldById(T[j].fields, g.id) == Found(g)
  {
    hide FieldById, DistinctIds, Closed, Alike;
    FieldFound(T[j].fields, g);
  }

  lemma LeftPresent(T: Schema, S: Schema, j: nat, slots: Slots)
    requires Lacks(T, S) && SchemaOk(S) && SchemaOk(T) && j < |S| && FirstMissing(S[j].fields, slots) == []
    ensures j < |T| && FirstMissing(T[j].fields, Left(T, j, slots)) == []
  {
    hide SchemaOk, Left, FieldById, FirstMissing;
    MissingIs(S[j].fields, slots);
    MissingIs(T[j].fields, Left(T, j, slots));
    forall g | g in T[j].fields && g.rule.Required? ensures g.id in Left(T, j, slots) {
      OfWriter(T, S, j, g);
      LeftAt(T, j, slots, g);
    }
  }

  lemma {:induction false} SeenItemsOk(T: Schema, S: Schema, f: Field, items: seq<Item>)
    requires Lacks(T, S) && SchemaOk(S) && SchemaOk(T) && ItemsOk(S, f, items)
    ensures ItemsOk(T, f, SeenItems(T, S, f, items))
    decreases items, 0
  {
    hide InRange, RawOk, SchemaOk, Lacks, BodyOk, Seen;
    if items != [] {
      if items[0].BodyItem? { SeenBodyOk(T, S, f.ty, items[0].body); }
      SeenItemsOk(T, S, f, items[1..]);
      assert ItemOk(T, f, SeenItem(T, S, f, items[0]));
      ItemOkFirst(T, f, SeenItem(T, S, f, items[0]), SeenItems(T, S, f, items[1..]));
    }
  }

  /** A reader whose schema lacks some fields, packs lists otherwise or requires less returns,
      for any well-formed records that a reader with the whole schema accepts, the same message
      without the fields that it lacks. */
  lemma OlderReader(T: Schema, S: Schema, j: nat, recs: seq<Record>)
    requires SchemaOk(S) && SchemaOk(T) && Lacks(T, S) && j < |S|
    requires RecordsOk(S, j, recs) && |RecordsBytes(S, recs)| < TWO32
    requires Decoded(S, j, RecordsBytes(S, recs)).Ok?
    ensures j < |T|
    ensures var Ok(m, p) := Decoded(S, j, RecordsBytes(S, recs));
            Decoded(T, j, RecordsBytes(S, recs)) == Ok(Without(T, j, m), p)
  {
    hide RecordsOk, SchemaOk, Lacks, Fold, Left, FirstMissing, Seen, RecordsBytes, Decoded, Without;
    var slots := Fold(S, map[], recs);
    SameSize(T, S);
    SeenOk(T, S, j, recs);
    SeenBytes(T, S, j, recs);
    SeenFold(T, S, j, map[], recs);
    LeftNone(T, j);
    LeftIs(T, j, slots);
    IsClosed(S);
    IsClosed(T);
    DecodesRecords(S, j, recs);
    DecodesRecords(T, j, Seen(T, S, j, recs));
    LeftPresent(T, S, j, slots);
  }

  lemma IsClosed(S: Schema)
    requires SchemaOk(S)
    ensures Closed(S)
  {}

  /** An encoded message, read with such a schema: the message as it comes back, without the
      fields that the reader lacks, at any depth. */
  lemma OlderReaderOfEncoded(T: Schema, S: Schema, j: nat, m: Message)
    requires SchemaOk(S) && SchemaOk(T) && Lacks(T, S) && Conforms(S, j, m) && |Encoded(S, j, m)| < TWO32
    ensures j < |T| && Decoded(T, j, Encoded(S, j, m)) == Ok(Without(T, j, ReadBack(m)), |Encoded(S, j, m)|)
  {
    hide RecordsOk, Fold, FirstMissing, RecordsBytes, Decoded, Without, Conforms, Tree, ReadBack, SchemaOk, Lacks;
    ConformsIndex(S, j, m);
    SameSize(T, S);
    IsClosed(T);
    IsClosed(S);
    TreeOk(S, j, m);
    DecodesEncoded(S, j, m);
    OlderReader(T, S, j, Tree(S, j, m));
  }
}
