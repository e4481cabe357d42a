/** What every message that the decoder returns is like, whatever the bytes. */
module Returned {
  import opened Bits
  import opened Buffers
  import opened Varints
  import opened Long
  import opened Utf8Codec
  import opened Readers
  import opened Messages
  import opened Wire
  import opened Decoding
  import opened DecodingTheorems
  import opened Encoding
  import opened EncodingTheorems

  /** Every property is a field of the type, of the form that its rule calls for and with
      values of its type, and at every depth all the required fields are there. */
  ghost predicate Formed(S: Schema, j: nat, m: Message)
    decreases m, 1
  {
    && j < |S| && AllPresent(S[j].fields, m.slots)
    && (forall id :: id in m.slots ==> FieldById(S[j].fields, id).Found?)
    && (forall id :: id in m.slots ==> FormedSlot(S, FieldById(S[j].fields, id).f, m.slots[id]))
  }

  ghost predicate FormedSlot(S: Schema, f: Field, slot: Slot)
    decreases slot
  {
    match slot
    case One(v) => (f.rule.Optional? || f.rule.Required?) && FormedValue(S, f.ty, v)
    case Many(vs) => f.rule.Repeated? && FormedValues(S, f.ty, vs)
    case Dict(es) => f.rule.MapOf? && FormedEntries(S, f, es) && DistinctKeys(es)
  }

  ghost predicate FormedValue(S: Schema, ty: FieldType, v: Value)
    decreases v
  {
    if ty.Basic? then InRange(ty.scalar, v) else v.Nested? && Formed(S, ty.index, v.m)
  }

  ghost predicate FormedValues(S: Schema, ty: FieldType, vs: seq<Value>)
    decreases vs
  {
    vs == [] || (FormedValue(S, ty, vs[0]) && FormedValues(S, ty, vs[1..]))
  }

  ghost predicate FormedEntries(S: Schema, f: Field, es: seq<Pair>)
    decreases es
  {
    es == [] || (FormedEntry(S, f, es[0]) && FormedEntries(S, f, es[1..]))
  }

  /** An entry of submessages without its value is left with null. */
  ghost predicate FormedEntry(S: Schema, f: Field, e: Pair)
    decreases e
  {
    InRange(KeyType(f), e.key) && (FormedValue(S, f.ty, e.val) || (f.ty.Ref? && e.val.Null?))
  }

  /** Slots of which more may be read. */
  ghost predicate FormedSlots(S: Schema, j: nat, slots: Slots) {
    && j < |S|
    && (forall id :: id in slots ==> FieldById(S[j].fields, id).Found?)
    && (forall id :: id in slots ==> FormedSlot(S, FieldById(S[j].fields, id).f, slots[id]))
  }

  /** What a reader returns is a value of the scalar type. */
  lemma ReadInRange(s: Scalar, buf: seq<byte>, pos: nat)
    requires ReadScalar(s, buf, pos).Ok?
    ensures InRange(s, ReadScalar(s, buf, pos).val)
  {
    hide EndsOpen, Wide, ReadUtf8, Fixed32, Fixed64, Run, Groups;
    if s.SInt64? || s.Int64? || s.UInt64? { WideInRange(buf, pos); }
  }

  lemma WideInRange(buf: seq<byte>, pos: nat)
    requires ReadU64(buf, pos).Ok?
    ensures ReadU64(buf, pos).val < TWO64
  {
    if |buf| - pos <= 4 {
      hide Pow2, Groups;
      GroupsBound(buf, pos, 4);
      GroupsBound(buf, pos, Run(buf, pos, 3) + 1);
      SmallPowers(Run(buf, pos, 3) + 1);
    }
  }

  lemma SmallPowers(n: nat)
    requires n <= 4
    ensures Pow2(7 * n) <= 0x1000_0000
  {
    hide Pow2;
    SevenBitPowers();
  }

  lemma DefaultInRange(s: Scalar)
    ensures InRange(s, Default(s))
  {}

  lemma {:induction false} FormedAppend(S: Schema, ty: FieldType, vs: seq<Value>, v: Value)
    requires FormedValues(S, ty, vs) && FormedValue(S, ty, v)
    ensures FormedValues(S, ty, vs + [v])
  {
    hide FormedValue;
    if vs == [] {
      assert vs + [v] == [v] && [v][1..] == [];
    } else {
      FormedAppend(S, ty, vs[1..], v);
      assert (vs + [v])[1..] == vs[1..] + [v];
    }
  }

  lemma {:induction false} FormedPut(S: Schema, f: Field, es: seq<Pair>, e: Pair)
    requires FormedEntries(S, f, es) && FormedEntry(S, f, e)
    ensures FormedEntries(S, f, PutEntry(es, e.key, e.val))
  {
    hide FormedEntry;
    if es == [] {
      assert [e][1..] == [];
    } else if es[0].key == e.key {
      assert PutEntry(es, e.key, e.val)[1..] == es[1..];
    } else {
      FormedPut(S, f, es[1..], e);
      assert PutEntry(es, e.key, e.val)[1..] == PutEntry(es[1..], e.key, e.val);
    }
  }

  lemma ElementsFormed(S: Schema, j: nat, slots: Slots, f: Field)
    requires FormedSlots(S, j, slots) && FieldById(S[j].fields, f.id) == Found(f)
    ensures FormedValues(S, f.ty, Elements(slots, f.id))
    ensures FormedEntries(S, f, Entries(slots, f.id)) && DistinctKeys(Entries(slots, f.id))
  {
    hide FormedValues, FormedEntries, FormedValue, FieldById, DistinctKeys;
    if f.id in slots { assert FormedSlot(S, f, slots[f.id]); }
    NoneFormed(S, f);
  }

  lemma NoneFormed(S: Schema, f: Field)
    ensures FormedValues(S, f.ty, []) && FormedEntries(S, f, []) && DistinctKeys([])
  {}

  lemma SlotFormed(S: Schema, j: nat, slots: Slots, f: Field, slot: Slot)
    requires FormedSlots(S, j, slots) && FieldById(S[j].fields, f.id) == Found(f) && FormedSlot(S, f, slot)
    ensures FormedSlots(S, j, slots[f.id := slot])
  {
    hide FormedSlot, FieldById;
  }

  // Every message that is returned is formed.

  lemma {:induction false} MessageFormed(S: Schema, j: nat, buf: seq<byte>, pos: nat, c: nat)
    requires Closed(S) && j < |S| && pos <= |buf| + 1
    ensures var r := DecodeMessage(S, j, buf, pos, c);
            r.Ok? ==> Formed(S, j, r.val)
    decreases |buf| + 2 - pos, 1
  {
    hide DecodeLoop, FirstMissing, FormedSlot, FieldById, AllPresent, Overruns, EndsOpen, Closed;
    LoopFormed(S, j, buf, pos, c, map[]);
    if DecodeLoop(S, j, buf, pos, c, map[]).Ok? {
      MissingIs(S[j].fields, DecodeLoop(S, j, buf, pos, c, map[]).val);
    }
  }

  lemma {:induction false} LoopFormed(S: Schema, j: nat, buf: seq<byte>, pos: nat, c: nat, acc: Slots)
    requires Closed(S) && pos <= |buf| + 1 && FormedSlots(S, j, acc)
    ensures var r := DecodeLoop(S, j, buf, pos, c, acc);
            r.Ok? ==> FormedSlots(S, j, r.val)
    decreases |buf| + 2 - pos, 0
  {
    hide DecodeField, FormedSlots, ReadU32, Overruns, EndsOpen, Closed;
    assert j < |S| by { SlotsIndex(S, j, acc); }
    if pos < c && ReadU32(buf, pos).Ok? {
      var Ok(t, p) := ReadU32(buf, pos);
      if !(S[j].group && t % 8 == 4) {
        DecodeFieldFormed(S, j, buf, p, t, acc);
        var r := DecodeField(S, j, buf, p, t, acc);
        if r.Ok? { LoopFormed(S, j, buf, r.pos, c, r.val); }
      }
    }
  }

  lemma SlotsIndex(S: Schema, j: nat, slots: Slots)
    requires FormedSlots(S, j, slots)
    ensures j < |S|
  {}

  lemma {:induction false} DecodeFieldFormed(S: Schema, j: nat, buf: seq<byte>, pos: nat, t: nat, acc: Slots)
    requires Closed(S) && j < |S| && pos <= |buf| && FormedSlots(S, j, acc)
    ensures var r := DecodeField(S, j, buf, pos, t, acc);
            r.Ok? ==> FormedSlots(S, j, r.val)
    decreases |buf| + 2 - pos, 3
  {
    hide DecodeValue, PackedLoop, EntryLoop, FormedSlots, FormedValue, FormedValues, FormedEntries, FormedEntry, ReadU32, Overruns, EndsOpen,
      FieldById, Elements, Entries, PutEntry, SkipType, DistinctKeys, Default;
    if FieldById(S[j].fields, t / 8).Found? {
      var f := FieldById(S[j].fields, t / 8).f;
      ElementsFormed(S, j, acc, f);
      var es, vs := Entries(acc, f.id), Elements(acc, f.id);
      if f.rule.MapOf? {
        if ReadU32(buf, pos).Ok? {
          var Ok(n, p) := ReadU32(buf, pos);
          var kv := Pair(Default(KeyType(f)), DefaultOf(f.ty));
          StartFormed(S, f);
          EntryLoopFormed(S, f, buf, p, p + n, kv);
          var r := EntryLoop(S, f, buf, p, p + n, kv);
          if r.Ok? {
            FormedPut(S, f, es, r.val);
            PutDistinct(es, r.val.key, r.val.val);
            SlotFormed(S, j, acc, f, Dict(PutEntry(es, r.val.key, r.val.val)));
          }
        }
      } else if f.rule.Repeated? && f.ty.Basic? && Packable(f.ty.scalar) && t % 8 == 2 {
        if ReadU32(buf, pos).Ok? {
          var Ok(n, p) := ReadU32(buf, pos);
          PackedFormed(S, f.ty.scalar, buf, p, p + n, vs);
          var r := PackedLoop(f.ty.scalar, buf, p, p + n, vs);
          if r.Ok? { SlotFormed(S, j, acc, f, Many(r.val)); }
        }
      } else {
        ValueFormed(S, f.ty, buf, pos, IsGroup(S, f.ty));
        var r := DecodeValue(S, f.ty, buf, pos, IsGroup(S, f.ty));
        if r.Ok? {
          FormedAppend(S, f.ty, vs, r.val);
          SlotFormed(S, j, acc, f, if f.rule.Repeated? then Many(vs + [r.val]) else One(r.val));
        }
      }
    }
  }

  lemma StartFormed(S: Schema, f: Field)
    ensures FormedEntry(S, f, Pair(Default(KeyType(f)), DefaultOf(f.ty)))
  {
    hide Default, InRange;
    DefaultInRange(KeyType(f));
    if f.ty.Basic? { DefaultInRange(f.ty.scalar); }
  }

  lemma {:induction false} ValueFormed(S: Schema, ty: FieldType, buf: seq<byte>, pos: nat, group: bool)
    requires Closed(S) && (ty.Ref? ==> ty.index < |S|) && pos <= |buf| + 1
    ensures var r := DecodeValue(S, ty, buf, pos, group);
            r.Ok? ==> FormedValue(S, ty, r.val)
    decreases |buf| + 2 - pos, 2
  {
    hide DecodeMessage, Formed, ReadScalar, ReadU32, InRange, Overruns, EndsOpen, Closed, Wide;
    if ty.Basic? {
      if ReadScalar(ty.scalar, buf, pos).Ok? { ReadInRange(ty.scalar, buf, pos); }
    } else if group {
      MessageFormed(S, ty.index, buf, pos, |buf|);
    } else if ReadU32(buf, pos).Ok? {
      var Ok(n, p) := ReadU32(buf, pos);
      MessageFormed(S, ty.index, buf, p, p + n);
    }
  }

  lemma {:induction false} PackedFormed(S: Schema, s: Scalar, buf: seq<byte>, pos: nat, c: nat, vs: seq<Value>)
    requires pos <= |buf| + 1 && FormedValues(S, Basic(s), vs)
    ensures var r := PackedLoop(s, buf, pos, c, vs);
            r.Ok? ==> FormedValues(S, Basic(s), r.val)
    decreases |buf| + 2 - pos
  {
    hide ReadScalar, InRange, FormedValues, Overruns, EndsOpen, Wide;
    if pos < c && ReadScalar(s, buf, pos).Ok? {
      var Ok(v, p) := ReadScalar(s, buf, pos);
      ReadInRange(s, buf, pos);
      FormedAppend(S, Basic(s), vs, v);
      PackedFormed(S, s, buf, p, c, vs + [v]);
    }
  }

  lemma {:induction false} EntryLoopFormed(S: Schema, f: Field, buf: seq<byte>, pos: nat, c: nat, kv: Pair)
    requires Closed(S) && (f.ty.Ref? ==> f.ty.index < |S|) && pos <= |buf| + 1 && FormedEntry(S, f, kv)
    ensures var r := EntryLoop(S, f, buf, pos, c, kv);
            r.Ok? ==> FormedEntry(S, f, r.val)
    decreases |buf| + 2 - pos, 0
  {
    hide EntryField, FormedEntry, ReadU32, Overruns, EndsOpen, Closed;
    if pos < c && ReadU32(buf, pos).Ok? {
      var Ok(t, p) := ReadU32(buf, pos);
      EntryFieldFormed(S, f, buf, p, t, kv);
      var r := EntryField(S, f, buf, p, t, kv);
      if r.Ok? { EntryLoopFormed(S, f, buf, r.pos, c, r.val); }
    }
  }

  lemma {:induction false} EntryFieldFormed(S: Schema, f: Field, buf: seq<byte>, pos: nat, t: nat, kv: Pair)
    requires Closed(S) && (f.ty.Ref? ==> f.ty.index < |S|) && pos <= |buf| && FormedEntry(S, f, kv)
    ensures var r := EntryField(S, f, buf, pos, t, kv);
            r.Ok? ==> FormedEntry(S, f, r.val)
    decreases |buf| + 2 - pos, 3
  {
    hide DecodeValue, FormedValue, ReadScalar, SkipType, InRange, Overruns, EndsOpen, Closed, Wide;
    if ReadScalar(KeyType(f), buf, pos).Ok? { ReadInRange(KeyType(f), buf, pos); }
    ValueFormed(S, f.ty, buf, pos, false);
  }

  /** Whatever the bytes, a message that decoding returns holds only fields of its type, with
      values of the right form and range, and at every depth every required field. */
  lemma DecodedFormed(S: Schema, j: nat, buf: seq<byte>)
    requires Closed(S) && j < |S|
    ensures Decoded(S, j, buf).Ok? ==> Formed(S, j, Decoded(S, j, buf).val)
  {
    hide DecodeMessage, Formed;
    MessageFormed(S, j, buf, 0, |buf|);
  }

  // What is returned can be written again.

  /** Maps have keys of the types that the language allows. */
  ghost predicate KeysOk(S: Schema) {
    forall j, f :: 0 <= j < |S| && f in S[j].fields && f.rule.MapOf? ==> MapKeyType(f.rule.key)
  }

  /** No map entry lacks its submessage, at any depth. */
  predicate Filled(m: Message)
    decreases m, 0
  {
    forall id :: id in m.slots ==> FilledSlot(m.slots[id])
  }

  predicate FilledSlot(slot: Slot)
    decreases slot
  {
    match slot
    case One(v) => FilledValue(v)
    case Many(vs) => FilledValues(vs)
    case Dict(es) => FilledEntries(es)
  }

  predicate FilledValue(v: Value)
    decreases v
  {
    !v.Null? && (v.Nested? ==> Filled(v.m))
  }

  predicate FilledValues(vs: seq<Value>)
    decreases vs
  {
    vs == [] || (FilledValue(vs[0]) && FilledValues(vs[1..]))
  }

  predicate FilledEntries(es: seq<Pair>)
    decreases es
  {
    es == [] || (FilledEntry(es[0]) && FilledEntries(es[1..]))
  }

  predicate FilledEntry(e: Pair)
    decreases e
  {
    FilledValue(e.val)
  }

  lemma {:induction false} FormedConforms(S: Schema, j: nat, m: Message)
    requires SchemaOk(S) && KeysOk(S) && Formed(S, j, m)
    ensures Conforms(S, j, m) <==> Filled(m)
    decreases m, 1
  {
    hide FieldById, FormedSlot, SlotOk, FilledSlot, AllPresent, DistinctIds;
    var fields := S[j].fields;
    forall f | f in fields
      ensures FieldById(fields, f.id) == Found(f)
      ensures f.id in m.slots ==> (SlotOk(S, f, m.slots[f.id]) <==> FilledSlot(m.slots[f.id]))
    {
      FieldFound(fields, f);
      if f.id in m.slots {
        assert f.rule.MapOf? ==> MapKeyType(f.rule.key);
        SlotConforms(S, f, m.slots[f.id]);
      }
    }
    assert forall f :: f in fields && f.id !in m.slots ==> !f.rule.Required? by { Present(fields, m.slots); }
    ByField(S, j, m);
  }

  lemma Present(fields: seq<Field>, slots: Slots)
    requires AllPresent(fields, slots)
    ensures forall f :: f in fields && f.id !in slots ==> !f.rule.Required?
  {}

  lemma ByField(S: Schema, j: nat, m: Message)
    requires j < |S| && forall id :: id in m.slots ==> FieldById(S[j].fields, id).Found?
    requires forall f :: f in S[j].fields && f.id !in m.slots ==> !f.rule.Required?
    requires forall f :: f in S[j].fields && f.id in m.slots ==> (SlotOk(S, f, m.slots[f.id]) <==> FilledSlot(m.slots[f.id]))
    ensures Conforms(S, j, m) <==> Filled(m)
  {
    hide FieldById, SlotOk, FilledSlot;
    if Conforms(S, j, m) {
      forall id | id in m.slots ensures FilledSlot(m.slots[id]) {
        var f := FieldById(S[j].fields, id).f;
        assert FieldOk(S, f, m);
      }
    }
  }

  lemma {:induction false} SlotConforms(S: Schema, f: Field, slot: Slot)
    requires SchemaOk(S) && KeysOk(S) && FormedSlot(S, f, slot) && (f.rule.MapOf? ==> MapKeyType(f.rule.key))
    ensures SlotOk(S, f, slot) <==> FilledSlot(slot)
    decreases slot
  {
    hide SchemaOk, KeysOk, FormedValue, ValueOk, FilledValue, DistinctKeys;
    match slot
    case One(v) => ValueConforms(S, f.ty, v);
    case Many(vs) => ValuesConform(S, f.ty, vs);
    case Dict(es) => EntriesConform(S, f, es);
  }

  lemma {:induction false} ValueConforms(S: Schema, ty: FieldType, v: Value)
    requires SchemaOk(S) && KeysOk(S) && FormedValue(S, ty, v)
    ensures ValueOk(S, ty, v) <==> FilledValue(v)
    decreases v
  {
    hide SchemaOk, KeysOk, Formed, Conforms, Filled;
    if ty.Ref? { FormedConforms(S, ty.index, v.m); }
  }

  lemma {:induction false} ValuesConform(S: Schema, ty: FieldType, vs: seq<Value>)
    requires SchemaOk(S) && KeysOk(S) && FormedValues(S, ty, vs)
    ensures ValuesOk(S, ty, vs) <==> FilledValues(vs)
    decreases vs
  {
    hide SchemaOk, KeysOk, FormedValue, ValueOk, FilledValue;
    if vs != [] {
      ValueConforms(S, ty, vs[0]);
      ValuesConform(S, ty, vs[1..]);
    }
  }

  lemma {:induction false} EntriesConform(S: Schema, f: Field, es: seq<Pair>)
    requires SchemaOk(S) && KeysOk(S) && FormedEntries(S, f, es)
    ensures EntriesOk(S, f, es) <==> FilledEntries(es)
    decreases es, 0
  {
    hide SchemaOk, KeysOk, FormedEntry, EntryOk, FilledEntry;
    if es != [] {
      EntryConforms(S, f, es[0]);
      EntriesConform(S, f, es[1..]);
    }
  }

  lemma {:induction false} EntryConforms(S: Schema, f: Field, e: Pair)
    requires SchemaOk(S) && KeysOk(S) && FormedEntry(S, f, e)
    ensures EntryOk(S, f, e) <==> FilledEntry(e)
    decreases e
  {
    hide SchemaOk, KeysOk, FormedValue, InRange;
    if e.val.Null? {
      NotNull(S, f.ty, e.val);
    } else {
      ValueConforms(S, f.ty, e.val);
    }
  }

  lemma NotNull(S: Schema, ty: FieldType, v: Value)
    requires v.Null?
    ensures !ValueOk(S, ty, v) && !FilledValue(v)
  {}

  /** What is decoded from any bytes whatever, when no map entry in it lacks its submessage,
      is encoded and decoded again to what a message comes back as; and to itself exactly
      when it is tidy. */
  lemma DecodedAgain(S: Schema, j: nat, buf: seq<byte>)
    requires SchemaOk(S) && KeysOk(S) && j < |S| && Decoded(S, j, buf).Ok?
    ensures var m := Decoded(S, j, buf).val;
            Conforms(S, j, m) <==> Filled(m)
    ensures var m := Decoded(S, j, buf).val;
            var again := Encoded(S, j, m);
            Filled(m) && |again| < TWO32 ==>
              Decoded(S, j, again) == Ok(ReadBack(m), |again|) && (Decoded(S, j, again) == Ok(m, |again|) <==> Tidy(m))
  {
    hide Decoded, Encoded, Conforms, Filled, Tidy, ReadBack, Formed, KeysOk;
    DecodedFormed(S, j, buf);
    var m := Decoded(S, j, buf).val;
    FormedConforms(S, j, m);
    if Filled(m) && |Encoded(S, j, m)| < TWO32 {
      DecodesEncoded(S, j, m);
      EncodingTheorems.RoundTrip(S, j, m);
    }
  }

  // What a map entry does not say.

  /** Zero, false, or nothing. */
  predicate IsZero(ty: FieldType, v: Value) {
    match ty
    case Ref(_) => v == Null
    case Basic(Double) => v == Data([0, 0, 0, 0, 0, 0, 0, 0])
    case Basic(Float) => v == Data([0, 0, 0, 0])
    case Basic(Bool) => v == Flag(false)
    case Basic(String) => v == Text([])
    case Basic(Bytes) => v == Data([])
    case _ => v == Num(0)
  }

  lemma ZeroIsDefault(ty: FieldType, v: Value)
    ensures IsZero(ty, v) <==> v == DefaultOf(ty)
  {}

  lemma TagSize(id: nat, wireType: nat)
    ensures |Tag(id, wireType)| <= 5
  {
    ShortVarint(ToUint32(id * 8 + wireType));
  }

  /** A map entry of no bytes at all, for whatever types of keys and values. */
  lemma {:induction false} EmptyEntry(S: Schema, j: nat, f: Field, key: Value, val: Value)
    requires SchemaOk(S) && j < |S| && f in S[j].fields && f.rule.MapOf?
    requires IsZero(Basic(f.rule.key), key) && IsZero(f.ty, val)
    ensures var buf := Tag(f.id, 2) + [0];
            |buf| < TWO32 && DecodeLoop(S, j, buf, 0, |buf|, map[]) == Ok(map[f.id := Dict([Pair(key, val)])], |buf|)
  {
    hide Default, InRange, FieldById, Tag, ReadU32, EndsOpen, Overruns;
    var buf := Tag(f.id, 2) + [0];
    ZeroIsDefault(Basic(f.rule.key), key);
    ZeroIsDefault(f.ty, val);
    var recs := [Entry(f, [])];
    assert recs[1..] == [];
    assert Delimited([]) == [0] by { assert Varint(0) == [0]; }
    assert RecordBytes(S, recs[0]) == buf;
    assert RecordsBytes(S, recs) == buf by {
      BytesFirst(S, recs[0], []);
      assert [recs[0]] + [] == recs;
    }
    assert Apply(S, map[], recs[0]) == map[f.id := Dict([Pair(key, val)])];
    FoldOne(S, map[], recs[0]);
    TagSize(f.id, 2);
    assert buf[0..|buf|] == buf;
    OkNone(S, j);
    OkFirst(S, j, recs[0], []);
    assert [recs[0]] + [] == recs;
    LoopRecords(S, j, recs, buf, 0, |buf|, map[]);
  }
}
