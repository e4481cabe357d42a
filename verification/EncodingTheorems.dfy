/** What decoding makes of an encoded message. */
module EncodingTheorems {
  import opened Bits
  import opened Buffers
  import opened Varints
  import opened Utf8Codec
  import opened Readers
  import opened Writers
  import opened Messages
  import opened Wire
  import opened Decoding
  import opened DecodingTheorems
  import opened Encoding

  // The records of a message mean what Absorb says.

  lemma {:induction false} FoldAppend(S: Schema, acc: Slots, a: seq<Record>, b: seq<Record>)
    ensures Fold(S, acc, a + b) == Fold(S, Fold(S, acc, a), b)
    decreases |a|
  {
    hide Apply;
    if a == [] {
      assert a + b == b;
    } else {
      assert (a + b)[1..] == a[1..] + b;
      FoldAppend(S, Apply(S, acc, a[0]), a[1..], b);
    }
  }

  lemma FoldOne(S: Schema, acc: Slots, rec: Record)
    ensures Fold(S, acc, [rec]) == Apply(S, acc, rec)
  {
    hide Apply;
    assert [rec][1..] == [];
  }

  function AbsorbField(acc: Slots, f: Field, m: Message): (r: Slots) {
    if f.id in m.slots && !Empty(m.slots[f.id]) then acc[f.id := AbsorbSlot(acc, f.id, m.slots[f.id])] else acc
  }

  /** The fields one by one. */
  function AbsorbFields(acc: Slots, fields: seq<Field>, m: Message): (r: Slots)
    decreases |fields|
  {
    if fields == [] then acc else AbsorbFields(AbsorbField(acc, fields[0], m), fields[1..], m)
  }

  function AbsorbSome(acc: Slots, fields: seq<Field>, m: Message): (r: Slots) {
    acc + map id | id in m.slots && FieldById(fields, id).Found? && !Empty(m.slots[id]) :: AbsorbSlot(acc, id, m.slots[id])
  }

  lemma {:induction false} NotFoundMeans(fields: seq<Field>, id: nat)
    requires forall f :: f in fields ==> f.id != id
    ensures FieldById(fields, id) == NotFound
  {
    if fields != [] {
      assert fields[0] in fields;
      NotFoundMeans(fields[1..], id);
    }
  }

  lemma SlotLocal(acc: Slots, acc': Slots, id: nat, slot: Slot)
    requires (id in acc) == (id in acc') && (id in acc ==> acc[id] == acc'[id])
    ensures AbsorbSlot(acc, id, slot) == AbsorbSlot(acc', id, slot)
  {}

  lemma SomeAt(acc: Slots, fields: seq<Field>, m: Message, id: nat)
    ensures var r := AbsorbSome(acc, fields, m);
            if id in m.slots && FieldById(fields, id).Found? && !Empty(m.slots[id]) then
              id in r && r[id] == AbsorbSlot(acc, id, m.slots[id])
            else if id in acc then id in r && r[id] == acc[id]
            else id !in r
  {
    hide FieldById, AbsorbSlot, Empty;
  }

  lemma {:induction false} SameAt(acc: Slots, fields: seq<Field>, m: Message, id: nat)
    requires fields != [] && Ascending(fields)
    ensures var a, b := AbsorbSome(acc, fields, m), AbsorbSome(AbsorbField(acc, fields[0], m), fields[1..], m);
            (id in a <==> id in b) && (id in a ==> a[id] == b[id])
  {
    hide AbsorbSlot, Empty, AbsorbSome;
    var acc' := AbsorbField(acc, fields[0], m);
    SomeAt(acc, fields, m, id);
    SomeAt(acc', fields[1..], m, id);
    if id == fields[0].id {
      NotFoundMeans(fields[1..], id);
    } else if id in m.slots {
      SlotLocal(acc, acc', id, m.slots[id]);
    }
  }

  /** No field disturbs another, so that one by one is all at once. */
  lemma {:induction false} AbsorbsAll(acc: Slots, fields: seq<Field>, m: Message)
    requires Ascending(fields)
    ensures AbsorbFields(acc, fields, m) == AbsorbSome(acc, fields, m)
    decreases |fields|
  {
    hide AbsorbSome, AbsorbField;
    if fields == [] {
      NoneAbsorbed(acc, m);
    } else {
      AbsorbsAll(AbsorbField(acc, fields[0], m), fields[1..], m);
      forall id: nat { SameAt(acc, fields, m, id); }
      assert AbsorbSome(acc, fields, m) == AbsorbSome(AbsorbField(acc, fields[0], m), fields[1..], m);
    }
  }

  lemma NoneAbsorbed(acc: Slots, m: Message)
    ensures AbsorbSome(acc, [], m) == acc
  {
    hide AbsorbSlot, Empty;
  }

  lemma AllFound(acc: Slots, fields: seq<Field>, m: Message)
    requires forall id :: id in m.slots ==> FieldById(fields, id).Found?
    ensures AbsorbSome(acc, fields, m) == Absorb(acc, m)
  {
    hide AbsorbSlot, Empty, FieldById;
  }

  lemma SortFinds(fields: seq<Field>, id: nat)
    requires DistinctIds(fields) && FieldById(fields, id).Found?
    ensures FieldById(SortById(fields), id).Found?
  {
    hide SortById, DistinctIds;
    SortAscends(fields);
    FindsMember(SortById(fields), FieldById(fields, id).f);
  }

  lemma {:induction false} FoldTree(S: Schema, j: nat, acc: Slots, m: Message)
    requires SchemaOk(S) && Conforms(S, j, m)
    ensures Fold(S, acc, Tree(S, j, m)) == Absorb(acc, m)
    decreases m, 2, 0
  {
    hide Fold, SortById, Ascending, Absorb, AbsorbSome, FieldsTree, AbsorbFields, FieldOk, FieldById;
    var fields := SortById(S[j].fields);
    SortAscends(S[j].fields);
    FoldFields(S, fields, acc, m);
    AbsorbsAll(acc, fields, m);
    forall id | id in m.slots
      ensures FieldById(fields, id).Found?
    {
      SortFinds(S[j].fields, id);
    }
    AllFound(acc, fields, m);
  }

  lemma {:induction false} FindsMember(fields: seq<Field>, f: Field)
    requires f in fields
    ensures FieldById(fields, f.id).Found?
  {
    if fields[0] != f {
      assert f in fields[1..];
      FindsMember(fields[1..], f);
    }
  }

  lemma {:induction false} FoldFields(S: Schema, fields: seq<Field>, acc: Slots, m: Message)
    requires SchemaOk(S) && forall f :: f in fields ==> FieldOk(S, f, m)
    ensures Fold(S, acc, FieldsTree(S, fields, m)) == AbsorbFields(acc, fields, m)
    decreases m, 1, |fields|
  {
    hide FieldTree, Fold, FieldOk, AbsorbField, SchemaOk;
    if fields == [] {
      FoldNone(S, acc);
    } else {
      var f := fields[0];
      FoldAppend(S, acc, FieldTree(S, f, m), FieldsTree(S, fields[1..], m));
      FoldField(S, f, acc, m);
      FoldFields(S, fields[1..], AbsorbField(acc, f, m), m);
    }
  }

  lemma FoldNone(S: Schema, acc: Slots)
    ensures Fold(S, acc, []) == acc
  {}

  lemma {:induction false} FoldField(S: Schema, f: Field, acc: Slots, m: Message)
    requires SchemaOk(S) && FieldOk(S, f, m)
    ensures Fold(S, acc, FieldTree(S, f, m)) == AbsorbField(acc, f, m)
    decreases m, 0, 0
  {
    hide Fold, Empty, SlotTree, AbsorbSlot, SlotOk, SchemaOk;
    if f.id in m.slots { FoldSlot(S, f, acc, m.slots[f.id]); } else { FoldNone(S, acc); }
  }

  lemma {:induction false} FoldSlot(S: Schema, f: Field, acc: Slots, slot: Slot)
    requires SchemaOk(S) && SlotOk(S, f, slot)
    ensures Fold(S, acc, SlotTree(S, f, slot))
            == if Empty(slot) then acc else acc[f.id := AbsorbSlot(acc, f.id, slot)]
    decreases slot
  {
    hide SchemaOk, Fold, ValueRecord, ValueRecords, EntryRecords, ReadEntries, ReadValues, ReadValue, ValueOk, EntriesOk,
         PutAll, DistinctKeys;
    match slot
    case One(v) =>
      FoldOne(S, acc, ValueRecord(S, f, v));
      FoldValue(S, f, acc, v);
    case Many(vs) =>
      if vs != [] && f.rule == Repeated(true) && f.ty.Basic? && Packable(f.ty.scalar) {
        FoldOne(S, acc, Packed(f, vs));
        ReadScalars(S, f.ty, vs);
      } else {
        FoldValues(S, f, acc, vs);
      }
    case Dict(es) => FoldEntries(S, f, acc, es);
  }

  lemma {:induction false} ReadScalars(S: Schema, ty: FieldType, vs: seq<Value>)
    requires ValuesOk(S, ty, vs) && ty.Basic? && Packable(ty.scalar)
    ensures ReadValues(vs) == vs && AllInRange(ty.scalar, vs)
  {
    hide AsRead, InRange;
    if vs != [] {
      SameAsRead(ty.scalar, vs[0]);
      NotNested(ty.scalar, vs[0]);
      ReadScalars(S, ty, vs[1..]);
    }
  }

  lemma NotNested(s: Scalar, v: Value)
    requires InRange(s, v)
    ensures !v.Nested?
  {}

  lemma {:induction false} FoldValue(S: Schema, f: Field, acc: Slots, v: Value)
    requires SchemaOk(S) && ValueOk(S, f.ty, v)
    ensures Apply(S, acc, ValueRecord(S, f, v)) == AddValue(acc, f, ReadValue(v))
    decreases v
  {
    hide SchemaOk, Fold, Tree, Absorb, Conforms, AddValue, AsRead;
    if f.ty.Ref? { FoldTree(S, f.ty.index, map[], v.m); }
  }

  lemma {:induction false} FoldValues(S: Schema, f: Field, acc: Slots, vs: seq<Value>)
    requires SchemaOk(S) && ValuesOk(S, f.ty, vs) && f.rule.Repeated?
    ensures Fold(S, acc, ValueRecords(S, f, vs))
            == if vs == [] then acc else acc[f.id := Many(Elements(acc, f.id) + ReadValues(vs))]
    decreases vs
  {
    hide SchemaOk, Fold, ReadValue, ValueRecord, ValueOk, Apply;
    if vs == [] {
      FoldNone(S, acc);
    } else {
      FoldFirst(S, acc, ValueRecord(S, f, vs[0]), ValueRecords(S, f, vs[1..]));
      FoldValue(S, f, acc, vs[0]);
      FoldValues(S, f, AddValue(acc, f, ReadValue(vs[0])), vs[1..]);
      var es, v := Elements(acc, f.id), ReadValue(vs[0]);
      assert es + [v] + ReadValues(vs[1..]) == es + ReadValues(vs);
      if vs[1..] == [] { assert es + ReadValues(vs) == es + [v]; }
    }
  }

  lemma {:induction false} FoldEntry(S: Schema, f: Field, acc: Slots, e: Pair)
    requires SchemaOk(S) && EntryOk(S, f, e)
    ensures Apply(S, acc, EntryRecord(S, f, e))
            == acc[f.id := Dict(PutEntry(Entries(acc, f.id), AsRead(WrittenKey(e.key)), ReadValue(e.val)))]
    decreases e
  {
    hide SchemaOk, Fold, Tree, Absorb, Conforms, PutEntry, Entries, AsRead;
    var k, i := KeyItem(WrittenKey(e.key)), EntryItem(S, f, e.val);
    if f.ty.Ref? { FoldTree(S, f.ty.index, map[], e.val.m); }
    FoldPair(S, f, k, i, Pair(Default(KeyType(f)), DefaultOf(f.ty)));
  }

  lemma FoldPair(S: Schema, f: Field, a: Item, b: Item, kv: Pair)
    ensures FoldItems(S, f, [a, b], kv) == ApplyItem(S, f, b, ApplyItem(S, f, a, kv))
  {
    hide ApplyItem;
    assert [a, b][1..] == [b];
    FoldItem(S, f, b, ApplyItem(S, f, a, kv));
  }

  lemma FoldItem(S: Schema, f: Field, a: Item, kv: Pair)
    ensures FoldItems(S, f, [a], kv) == ApplyItem(S, f, a, kv)
  {
    hide ApplyItem;
    assert [a][1..] == [];
  }

  lemma {:induction false} FoldEntries(S: Schema, f: Field, acc: Slots, es: seq<Pair>)
    requires SchemaOk(S) && EntriesOk(S, f, es)
    ensures Fold(S, acc, EntryRecords(S, f, es))
            == if es == [] then acc else acc[f.id := Dict(PutAll(Entries(acc, f.id), ReadEntries(es)))]
    decreases es
  {
    hide SchemaOk, Fold, ReadValue, EntryRecord, EntryOk, Apply, PutEntry, AsRead;
    if es == [] {
      FoldNone(S, acc);
    } else {
      var e := ReadEntry(es[0]);
      FoldFirst(S, acc, EntryRecord(S, f, es[0]), EntryRecords(S, f, es[1..]));
      FoldEntry(S, f, acc, es[0]);
      FoldEntries(S, f, acc[f.id := Dict(PutEntry(Entries(acc, f.id), e.key, e.val))], es[1..]);
      assert ReadEntries(es)[1..] == ReadEntries(es[1..]);
    }
  }

  // The records of a conforming message are well-formed.

  lemma {:induction false} OkAppend(S: Schema, j: nat, a: seq<Record>, b: seq<Record>)
    requires j < |S| && RecordsOk(S, j, a) && RecordsOk(S, j, b)
    ensures RecordsOk(S, j, a + b)
    decreases |a|
  {
    hide RecordOk;
    if a == [] {
      assert a + b == b;
    } else {
      FirstOk(S, j, a);
      OkAppend(S, j, a[1..], b);
      assert [a[0]] + (a[1..] + b) == a + b;
      OkFirst(S, j, a[0], a[1..] + b);
    }
  }

  lemma OkNone(S: Schema, j: nat)
    requires j < |S|
    ensures RecordsOk(S, j, [])
  {}

  lemma OkOne(S: Schema, j: nat, rec: Record)
    requires j < |S| && RecordOk(S, j, rec)
    ensures RecordsOk(S, j, [rec])
  {
    hide RecordOk;
    OkNone(S, j);
    OkFirst(S, j, rec, []);
    assert [rec] + [] == [rec];
  }

  lemma AbsorbedAt(acc: Slots, m: Message, id: nat)
    requires id in m.slots && !Empty(m.slots[id])
    ensures id in Absorb(acc, m)
  {
    hide AbsorbSlot, Empty;
  }

  lemma {:induction false} NoneMissing(S: Schema, fields: seq<Field>, acc: Slots, m: Message)
    requires forall f :: f in fields ==> FieldOk(S, f, m)
    ensures FirstMissing(fields, Absorb(acc, m)) == []
    decreases |fields|
  {
    hide Absorb, ValueOk, ValuesOk, EntriesOk, DistinctKeys;
    if fields != [] {
      NoneMissing(S, fields[1..], acc, m);
      assert FieldOk(S, fields[0], m);
      if fields[0].rule.Required? { AbsorbedAt(acc, m, fields[0].id); }
    }
  }

  lemma {:induction false} TreeOk(S: Schema, j: nat, m: Message)
    requires SchemaOk(S) && Conforms(S, j, m)
    ensures RecordsOk(S, j, Tree(S, j, m)) && BodyOk(S, Ref(j), Tree(S, j, m))
    decreases m, 2, 0
  {
    hide FieldsTree, FieldOk, SortById, RecordsOk, Ascending, Fold, FirstMissing, Absorb, FieldById;
    SortAscends(S[j].fields);
    FieldsOk(S, j, SortById(S[j].fields), m);
    FoldTree(S, j, map[], m);
    NoneMissing(S, S[j].fields, map[], m);
  }

  lemma {:induction false} FieldsOk(S: Schema, j: nat, fields: seq<Field>, m: Message)
    requires SchemaOk(S) && j < |S| && forall f :: f in fields ==> f in S[j].fields && FieldOk(S, f, m)
    ensures RecordsOk(S, j, FieldsTree(S, fields, m))
    decreases m, 1, |fields|
  {
    hide FieldTree, FieldOk, RecordsOk, SchemaOk, SlotTree, SlotOk;
    OkNone(S, j);
    if fields != [] {
      FieldsOk(S, j, fields[1..], m);
      FieldTreeOk(S, j, fields[0], m);
      OkAppend(S, j, FieldTree(S, fields[0], m), FieldsTree(S, fields[1..], m));
    }
  }

  lemma {:induction false} FieldTreeOk(S: Schema, j: nat, f: Field, m: Message)
    requires SchemaOk(S) && j < |S| && f in S[j].fields && FieldOk(S, f, m)
    ensures RecordsOk(S, j, FieldTree(S, f, m))
    decreases m, 0, 0
  {
    hide RecordsOk, SchemaOk, SlotTree, SlotOk;
    OkNone(S, j);
    if f.id in m.slots { SlotTreeOk(S, j, f, m.slots[f.id]); }
  }

  lemma {:induction false} SlotTreeOk(S: Schema, j: nat, f: Field, slot: Slot)
    requires SchemaOk(S) && j < |S| && f in S[j].fields && SlotOk(S, f, slot)
    ensures RecordsOk(S, j, SlotTree(S, f, slot))
    decreases slot
  {
    hide SchemaOk, RecordsOk, RecordOk, ValueRecord, ValueRecords, EntryRecords, ValueOk, ValuesOk, EntriesOk, DistinctKeys, AllInRange;
    match slot
    case One(v) =>
      ValueRecordOk(S, j, f, v);
      OkOne(S, j, ValueRecord(S, f, v));
    case Many(vs) =>
      if vs != [] && f.rule == Repeated(true) && f.ty.Basic? && Packable(f.ty.scalar) {
        ReadScalars(S, f.ty, vs);
        PackedOk(S, j, f, vs);
        OkOne(S, j, Packed(f, vs));
      } else {
        ValueRecordsOk(S, j, f, vs);
      }
    case Dict(es) => EntryRecordsOk(S, j, f, es);
  }

  lemma PackedOk(S: Schema, j: nat, f: Field, vs: seq<Value>)
    requires j < |S|
    ensures RecordOk(S, j, Packed(f, vs))
            <==> f in S[j].fields && f.rule.Repeated? && f.ty.Basic? && Packable(f.ty.scalar) && AllInRange(f.ty.scalar, vs)
  {
    hide AllInRange;
  }

  lemma {:induction false} ValueRecordOk(S: Schema, j: nat, f: Field, v: Value)
    requires SchemaOk(S) && j < |S| && f in S[j].fields && !f.rule.MapOf? && ValueOk(S, f.ty, v)
    ensures RecordOk(S, j, ValueRecord(S, f, v))
    decreases v
  {
    hide SchemaOk, Tree, Conforms, BodyOk, InRange;
    if f.ty.Ref? {
      ValueBodyOk(S, f.ty, v);
      SubOk(S, j, f, Tree(S, f.ty.index, v.m));
    }
  }

  lemma {:induction false} ValueBodyOk(S: Schema, ty: FieldType, v: Value)
    requires SchemaOk(S) && ty.Ref? && ValueOk(S, ty, v)
    ensures BodyOk(S, ty, Tree(S, ty.index, v.m))
    decreases v, 0
  {
    hide SchemaOk, Tree, Conforms, BodyOk;
    TreeOk(S, ty.index, v.m);
  }

  lemma {:induction false} ValueRecordsOk(S: Schema, j: nat, f: Field, vs: seq<Value>)
    requires SchemaOk(S) && j < |S| && f in S[j].fields && !f.rule.MapOf? && ValuesOk(S, f.ty, vs)
    ensures RecordsOk(S, j, ValueRecords(S, f, vs))
    decreases vs
  {
    hide SchemaOk, RecordsOk, RecordOk, ValueRecord, ValueOk;
    OkNone(S, j);
    if vs != [] {
      ValueRecordOk(S, j, f, vs[0]);
      ValueRecordsOk(S, j, f, vs[1..]);
      OkFirst(S, j, ValueRecord(S, f, vs[0]), ValueRecords(S, f, vs[1..]));
    }
  }

  lemma {:induction false} EntryRecordsOk(S: Schema, j: nat, f: Field, es: seq<Pair>)
    requires SchemaOk(S) && j < |S| && f in S[j].fields && f.rule.MapOf? && EntriesOk(S, f, es)
    ensures RecordsOk(S, j, EntryRecords(S, f, es))
    decreases es
  {
    hide SchemaOk, RecordsOk, RecordOk, EntryRecord, EntryOk;
    OkNone(S, j);
    if es != [] {
      EntryRecordOk(S, j, f, es[0]);
      EntryRecordsOk(S, j, f, es[1..]);
      OkFirst(S, j, EntryRecord(S, f, es[0]), EntryRecords(S, f, es[1..]));
    }
  }

  lemma {:induction false} EntryRecordOk(S: Schema, j: nat, f: Field, e: Pair)
    requires SchemaOk(S) && j < |S| && f in S[j].fields && f.rule.MapOf? && EntryOk(S, f, e)
    ensures RecordOk(S, j, EntryRecord(S, f, e))
    decreases e
  {
    hide SchemaOk, Tree, Conforms, BodyOk, InRange, ItemOk, ItemsOk;
    var k, i := KeyItem(WrittenKey(e.key)), EntryItem(S, f, e.val);
    KeyItemOk(S, f, e.key);
    if f.ty.Ref? {
      ValueBodyOk(S, f.ty, e.val);
      BodyItemOk(S, f, Tree(S, f.ty.index, e.val.m));
    } else {
      ValueItemOk(S, f, e.val);
    }
    PairOk(S, f, k, i);
  }

  lemma KeyItemOk(S: Schema, f: Field, k: Value)
    requires InRange(KeyType(f), k)
    ensures ItemOk(S, f, KeyItem(WrittenKey(k)))
  {
    hide ReadsBack;
  }

  lemma ValueItemOk(S: Schema, f: Field, v: Value)
    requires f.ty.Basic? && InRange(f.ty.scalar, v)
    ensures ItemOk(S, f, ValueItem(v))
  {
    hide InRange;
  }

  lemma PairOk(S: Schema, f: Field, a: Item, b: Item)
    requires ItemOk(S, f, a) && ItemOk(S, f, b)
    ensures ItemsOk(S, f, [a, b])
  {
    hide ItemOk;
    ItemOkFirst(S, f, b, []);
    assert [b] + [] == [b];
    ItemOkFirst(S, f, a, [b]);
    assert [a] + [b] == [a, b];
  }

  /** A list is one run of bytes exactly when its field is packed and of a scalar type other
      than strings and bytes; otherwise each value has its own tag. */
  lemma PackedWhen(S: Schema, f: Field, vs: seq<Value>)
    requires vs != []
    ensures var one := f.rule.Repeated? && f.rule.packed && f.ty.Basic? && f.ty.scalar != Scalar.String && f.ty.scalar != Scalar.Bytes;
            RecordsBytes(S, SlotTree(S, f, Many(vs)))
            == if one then Tag(f.id, 2) + Delimited(ScalarsBytes(f.ty.scalar, vs)) else RecordsBytes(S, ValueRecords(S, f, vs))
  {
    hide ScalarsBytes, Tag, Delimited, ValueRecords;
    BytesOne(S, Packed(f, vs));
  }

  /** A submessage is its encoding behind its length, or, when its type is a group, between
      the two tags of the field. */
  lemma SubmessageBytes(S: Schema, f: Field, m: Message)
    requires f.ty.Ref? && f.ty.index < |S|
    ensures var b := Encoded(S, f.ty.index, m);
            RecordsBytes(S, SlotTree(S, f, One(Nested(m))))
            == if S[f.ty.index].group then Tag(f.id, 3) + b + Tag(f.id, 4) else Tag(f.id, 2) + Delimited(b)
  {
    hide Tag, Delimited, Tree, RecordsBytes;
    BytesOne(S, ValueRecord(S, f, Nested(m)));
  }

  lemma BytesOne(S: Schema, rec: Record)
    ensures RecordsBytes(S, [rec]) == RecordBytes(S, rec)
  {
    hide RecordBytes;
    BytesFirst(S, rec, []);
    assert [rec] + [] == [rec] && RecordsBytes(S, []) == [];
  }

  /** What a whole message is decoded to after its encoding. */
  lemma DecodesEncoded(S: Schema, j: nat, m: Message)
    requires SchemaOk(S) && Conforms(S, j, m) && |Encoded(S, j, m)| < TWO32
    ensures Decoded(S, j, Encoded(S, j, m)) == Ok(ReadBack(m), |Encoded(S, j, m)|)
  {
    hide Tree, Fold, RecordsBytes, FirstMissing, Absorb, Conforms, Decoded, RecordsOk;
    TreeOk(S, j, m);
    FoldTree(S, j, map[], m);
    ConformsIndex(S, j, m);
    DecodesRecords(S, j, Tree(S, j, m));
  }

  lemma ConformsIndex(S: Schema, j: nat, m: Message)
    requires Conforms(S, j, m)
    ensures j < |S|
  {}

  lemma {:induction false} BytesAppend(S: Schema, a: seq<Record>, b: seq<Record>)
    ensures RecordsBytes(S, a + b) == RecordsBytes(S, a) + RecordsBytes(S, b)
    decreases |a|
  {
    hide RecordBytes;
    if a == [] {
      assert a + b == b;
    } else {
      assert (a + b)[1..] == a[1..] + b;
      BytesAppend(S, a[1..], b);
    }
  }

  /** Two encodings one behind the other are decoded to the first message taking in the
      second one. */
  lemma Concatenation(S: Schema, j: nat, m: Message, n: Message)
    requires SchemaOk(S) && Conforms(S, j, m) && Conforms(S, j, n)
    requires |Encoded(S, j, m) + Encoded(S, j, n)| < TWO32
    ensures Answer(Decoded(S, j, Encoded(S, j, m) + Encoded(S, j, n))) == Return(Message(Absorb(ReadBack(m).slots, n)))
  {
    hide Tree, Fold, RecordsBytes, FirstMissing, Absorb, Conforms, Decoded, RecordsOk;
    var a, b := Tree(S, j, m), Tree(S, j, n);
    ConformsIndex(S, j, m);
    TreeOk(S, j, m);
    TreeOk(S, j, n);
    OkAppend(S, j, a, b);
    BytesAppend(S, a, b);
    FoldAppend(S, map[], a, b);
    FoldTree(S, j, map[], m);
    FoldTree(S, j, Absorb(map[], m), n);
    StillThere(S, j, Absorb(map[], m), n);
    DecodesRecords(S, j, a + b);
  }

  lemma StillThere(S: Schema, j: nat, acc: Slots, n: Message)
    requires SchemaOk(S) && Conforms(S, j, n)
    ensures FirstMissing(S[j].fields, Absorb(acc, n)) == []
  {
    hide Absorb, FieldOk;
    NoneMissing(S, S[j].fields, acc, n);
  }

  // Which messages come back unchanged.

  /** Nothing that does not survive: an empty list, an empty map, the key false, or a string
      for which the reader repeats a stale unit. */
  predicate Tidy(m: Message)
    decreases m, 0
  {
    forall id :: id in m.slots ==> TidySlot(m.slots[id])
  }

  predicate TidySlot(slot: Slot)
    decreases slot
  {
    match slot
    case One(v) => TidyValue(v)
    case Many(vs) => vs != [] && TidyValues(vs)
    case Dict(es) => es != [] && TidyEntries(es)
  }

  predicate TidyValue(v: Value)
    decreases v
  {
    (v.Nested? ==> Tidy(v.m)) && (v.Text? ==> ReadsBack(v.s))
  }

  predicate TidyValues(vs: seq<Value>)
    decreases vs
  {
    vs == [] || (TidyValue(vs[0]) && TidyValues(vs[1..]))
  }

  predicate TidyEntries(es: seq<Pair>)
    decreases es
  {
    es == [] || (TidyEntry(es[0]) && TidyEntries(es[1..]))
  }

  predicate TidyEntry(e: Pair)
    decreases e
  {
    e.key != Flag(false) && (e.key.Text? ==> ReadsBack(e.key.s)) && TidyValue(e.val)
  }

  lemma {:induction false} PutNew(es: seq<Pair>, k: Value, v: Value)
    requires forall i :: 0 <= i < |es| ==> es[i].key != k
    ensures PutEntry(es, k, v) == es + [Pair(k, v)]
  {
    if es != [] { PutNew(es[1..], k, v); }
  }

  lemma {:induction false} PutAllNew(es: seq<Pair>, more: seq<Pair>)
    requires DistinctKeys(es + more)
    ensures PutAll(es, more) == es + more
    decreases |more|
  {
    if more == [] {
      assert es + more == es;
    } else {
      var es' := es + [more[0]];
      forall i | 0 <= i < |es|
        ensures es[i].key != more[0].key
      {
        assert (es + more)[i] == es[i] && (es + more)[|es|] == more[0];
      }
      PutNew(es, more[0].key, more[0].val);
      assert es' + more[1..] == es + more;
      PutAllNew(es', more[1..]);
    }
  }

  lemma {:induction false} PutKeeps(es: seq<Pair>, k: Value, v: Value)
    requires forall e :: e in es ==> e.key != Flag(false)
    requires k != Flag(false)
    ensures forall e :: e in PutEntry(es, k, v) ==> e.key != Flag(false)
  {
    if es != [] && es[0].key != k {
      PutKeeps(es[1..], k, v);
      assert es[0] in es;
    }
  }

  /** The key false never comes back. */
  lemma {:induction false} NeverFalse(es: seq<Pair>, more: seq<Pair>)
    requires forall e :: e in es ==> e.key != Flag(false)
    ensures forall e :: e in PutAll(es, ReadEntries(more)) ==> e.key != Flag(false)
    decreases |more|
  {
    hide PutEntry, ReadValue, AsRead;
    if more != [] {
      var e := ReadEntry(more[0]);
      PutKeeps(es, e.key, e.val);
      assert ReadEntries(more)[1..] == ReadEntries(more[1..]);
      NeverFalse(PutEntry(es, e.key, e.val), more[1..]);
    }
  }

  lemma {:induction false} ExactMessage(S: Schema, j: nat, m: Message)
    requires Conforms(S, j, m)
    ensures ReadBack(m) == m <==> Tidy(m)
    decreases m, 1
  {
    hide AbsorbSlot, TidySlot, Empty, FieldById, SlotOk;
    forall id | id in m.slots
      ensures TidySlot(m.slots[id]) <==> !Empty(m.slots[id]) && AbsorbSlot(map[], id, m.slots[id]) == m.slots[id]
    {
      var f := FieldById(S[j].fields, id).f;
      assert FieldOk(S, f, m);
      ExactSlot(S, f, id, m.slots[id]);
    }
    ExactSlots(m);
  }

  lemma ExactSlots(m: Message)
    ensures ReadBack(m) == m <==>
            forall id :: id in m.slots ==> !Empty(m.slots[id]) && AbsorbSlot(map[], id, m.slots[id]) == m.slots[id]
  {
    hide AbsorbSlot, Empty;
    var r := ReadBack(m).slots;
    forall id: nat
      ensures id in r <==> id in m.slots && !Empty(m.slots[id])
      ensures id in r ==> r[id] == AbsorbSlot(map[], id, m.slots[id])
    {}
    if r == m.slots {
      forall id | id in m.slots ensures !Empty(m.slots[id]) && AbsorbSlot(map[], id, m.slots[id]) == m.slots[id] {
        assert id in r;
      }
    }
    if forall id :: id in m.slots ==> !Empty(m.slots[id]) && AbsorbSlot(map[], id, m.slots[id]) == m.slots[id] {
      assert r == m.slots;
    }
  }

  lemma {:induction false} ExactSlot(S: Schema, f: Field, id: nat, slot: Slot)
    requires SlotOk(S, f, slot)
    ensures TidySlot(slot) <==> !Empty(slot) && AbsorbSlot(map[], id, slot) == slot
    decreases slot
  {
    hide ReadValue, ReadValues, ReadEntries, PutAll, TidyValue, TidyValues, TidyEntries, ValueOk, ValuesOk, EntriesOk, DistinctKeys;
    match slot
    case One(v) => ExactValue(S, f.ty, v);
    case Many(vs) =>
      ExactValues(S, f.ty, vs);
      assert [] + ReadValues(vs) == ReadValues(vs);
    case Dict(es) => ExactDict(S, f, es);
  }

  lemma {:induction false} ExactValue(S: Schema, ty: FieldType, v: Value)
    requires ValueOk(S, ty, v)
    ensures ReadValue(v) == v <==> TidyValue(v)
    decreases v
  {
    hide Absorb, Conforms, Tidy, Reread, ReadsBack;
    if v.Text? { RereadIs(v.s); }
    if v.Nested? && ty.Ref? {
      ExactMessage(S, ty.index, v.m);
    }
  }

  lemma {:induction false} ExactValues(S: Schema, ty: FieldType, vs: seq<Value>)
    requires ValuesOk(S, ty, vs)
    ensures ReadValues(vs) == vs <==> TidyValues(vs)
    decreases vs
  {
    hide ReadValue, TidyValue, ValueOk;
    if vs != [] {
      ExactValue(S, ty, vs[0]);
      ExactValues(S, ty, vs[1..]);
      SameFirst(ReadValue(vs[0]), ReadValues(vs[1..]), vs);
    }
  }

  lemma SameFirst<T>(x: T, rest: seq<T>, s: seq<T>)
    requires s != []
    ensures [x] + rest == s <==> x == s[0] && rest == s[1..]
  {
    if [x] + rest == s { assert ([x] + rest)[1..] == rest; }
  }

  lemma {:induction false} ExactEntries(S: Schema, f: Field, es: seq<Pair>)
    requires EntriesOk(S, f, es)
    ensures |ReadEntries(es)| == |es|
    ensures ReadEntries(es) == es <==> TidyEntries(es)
    decreases es, 0
  {
    hide ReadEntry, TidyEntry, EntryOk;
    if es != [] {
      ExactEntry(S, f, es[0]);
      ExactEntries(S, f, es[1..]);
      SameFirst(ReadEntry(es[0]), ReadEntries(es[1..]), es);
    }
  }

  lemma {:induction false} ExactEntry(S: Schema, f: Field, e: Pair)
    requires EntryOk(S, f, e)
    ensures ReadEntry(e) == e <==> TidyEntry(e)
    decreases e
  {
    hide Reread, ReadsBack, ReadValue, TidyValue, ValueOk;
    ExactValue(S, f.ty, e.val);
    if e.key.Text? { RereadIs(e.key.s); }
  }

  lemma PutDistinct(es: seq<Pair>, k: Value, v: Value)
    requires DistinctKeys(es)
    ensures var r := PutEntry(es, k, v);
            DistinctKeys(r) && (r == es + [Pair(k, v)] || |r| == |es|)
  {
    PutAt(es, k, v);
  }

  /** Putting an entry replaces the one with its key, or appends it. */
  lemma {:induction false} PutAt(es: seq<Pair>, k: Value, v: Value)
    ensures var r := PutEntry(es, k, v);
            || (r == es + [Pair(k, v)] && forall i :: 0 <= i < |es| ==> es[i].key != k)
            || (|r| == |es| && forall i :: 0 <= i < |es| ==> r[i].key == es[i].key)
  {
    if es != [] && es[0].key != k { PutAt(es[1..], k, v); }
  }

  /** Entries whose keys are not all different are fewer when they have been put. */
  lemma {:induction false} PutAllDistinct(es: seq<Pair>, more: seq<Pair>)
    requires DistinctKeys(es)
    ensures var n := |PutAll(es, more)|; n <= |es| + |more| && (n == |es| + |more| ==> DistinctKeys(es + more))
    decreases |more|
  {
    hide PutEntry, DistinctKeys;
    if more == [] {
      assert es + more == es;
    } else {
      var e, rest := more[0], more[1..];
      PutDistinct(es, e.key, e.val);
      PutAllDistinct(PutEntry(es, e.key, e.val), rest);
      assert [Pair(e.key, e.val)] + rest == more;
      assert es + [Pair(e.key, e.val)] + rest == es + more;
    }
  }

  lemma ExactDict(S: Schema, f: Field, es: seq<Pair>)
    requires EntriesOk(S, f, es) && DistinctKeys(es)
    ensures PutAll([], ReadEntries(es)) == es <==> TidyEntries(es)
    decreases es, 1
  {
    hide EntriesOk, ReadEntries, PutAll, TidyEntries;
    ExactEntries(S, f, es);
    var r := ReadEntries(es);
    assert [] + r == r;
    PutAllDistinct([], r);
    if DistinctKeys(r) { PutAllNew([], r); }
  }

  /** Encoding and decoding a conforming message returns it, the same fields present,
      exactly when it is tidy. */
  lemma RoundTrip(S: Schema, j: nat, m: Message)
    requires SchemaOk(S) && Conforms(S, j, m) && |Encoded(S, j, m)| < TWO32
    ensures Decoded(S, j, Encoded(S, j, m)) == Ok(m, |Encoded(S, j, m)|) <==> Tidy(m)
  {
    hide Conforms, Tidy, Decoded, Encoded, ReadBack;
    DecodesEncoded(S, j, m);
    ExactMessage(S, j, m);
  }

  // What taking in means for one field.

  function Lookup(es: seq<Pair>, k: Value): (r: seq<Value>) {
    if es == [] then [] else if es[0].key == k then [es[0].val] else Lookup(es[1..], k)
  }

  lemma {:induction false} LookupPut(es: seq<Pair>, k: Value, v: Value, x: Value)
    ensures Lookup(PutEntry(es, k, v), x) == if x == k then [v] else Lookup(es, x)
  {
    if es == [] {
      assert Lookup([Pair(k, v)], x) == if x == k then [v] else Lookup([], x);
    } else if es[0].key == k {
      assert PutEntry(es, k, v)[1..] == es[1..];
    } else {
      LookupPut(es[1..], k, v, x);
      assert PutEntry(es, k, v)[1..] == PutEntry(es[1..], k, v);
    }
  }

  /** Later map entries override earlier ones key by key, and no others. */
  lemma {:induction false} MapsOverride(es: seq<Pair>, more: seq<Pair>, k: Value)
    requires DistinctKeys(more)
    ensures Lookup(PutAll(es, more), k) == if Lookup(more, k) != [] then Lookup(more, k) else Lookup(es, k)
    decreases |more|
  {
    hide PutEntry;
    if more != [] {
      LookupPut(es, more[0].key, more[0].val, k);
      MapsOverride(PutEntry(es, more[0].key, more[0].val), more[1..], k);
      if k == more[0].key { NoOther(more[1..], k); }
    }
  }

  lemma {:induction false} NoOther(es: seq<Pair>, k: Value)
    requires forall i :: 0 <= i < |es| ==> es[i].key != k
    ensures Lookup(es, k) == []
  {
    if es != [] { NoOther(es[1..], k); }
  }
}
