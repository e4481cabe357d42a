/** Messages that conform to their type and come back different. */
module Untidy {
  import opened Bits
  import opened Varints
  import opened Utf8Codec
  import opened Messages
  import opened Wire
  import opened Decoding
  import opened DecodingTheorems
  import opened Encoding
  import opened EncodingTheorems

  /** A root with one message type of one field. */
  function OneType(f: Field): (S: Schema) {
    [MessageType([f], false)]
  }

  function OneSlot(f: Field, slot: Slot): (m: Message) {
    Message(map[f.id := slot])
  }

  lemma OneSorted(f: Field)
    ensures SortById([f]) == [f]
  {
    var fs := [f];
    assert fs[1..] == [];
    assert SortById(fs) == Insert(f, SortById([]));
    assert SortById([]) == [];
  }

  lemma OneConforms(f: Field, slot: Slot)
    requires f.id < MAX_ID && f.ty.Basic? && SlotOk(OneType(f), f, slot)
    ensures SchemaOk(OneType(f)) && Conforms(OneType(f), 0, OneSlot(f, slot))
    ensures Encoded(OneType(f), 0, OneSlot(f, slot)) == RecordsBytes(OneType(f), SlotTree(OneType(f), f, slot))
    ensures ReadBack(OneSlot(f, slot)).slots == if Empty(slot) then map[] else map[f.id := AbsorbSlot(map[], f.id, slot)]
  {
    hide SlotOk, SlotTree, AbsorbSlot, RecordsBytes;
    var S, m := OneType(f), OneSlot(f, slot);
    assert FieldOk(S, f, m);
    OneSorted(f);
    var fs := [f];
    assert fs[1..] == [] && FieldsTree(S, [], m) == [];
    assert FieldsTree(S, fs, m) == SlotTree(S, f, slot) + [] == SlotTree(S, f, slot);
    assert S[0].fields == fs && SortById(S[0].fields) == fs;
  }

  /** An empty list, and an empty map, leave no trace. */
  lemma EmptyLost()
    ensures var f := Field(1, Repeated(true), Basic(Int32));
            var S, m := OneType(f), OneSlot(f, Many([]));
            SchemaOk(S) && Conforms(S, 0, m) && Decoded(S, 0, Encoded(S, 0, m)) == Ok(Message(map[]), 0)
    ensures var f := Field(1, MapOf(Scalar.Bool), Basic(Int32));
            var S, m := OneType(f), OneSlot(f, Dict([]));
            SchemaOk(S) && Conforms(S, 0, m) && Decoded(S, 0, Encoded(S, 0, m)) == Ok(Message(map[]), 0)
  {
    hide Decoded, Encoded, ReadBack, Conforms, SchemaOk;
    var f, g := Field(1, Repeated(true), Basic(Int32)), Field(1, MapOf(Scalar.Bool), Basic(Int32));
    OneConforms(f, Many([]));
    OneConforms(g, Dict([]));
    DecodesEncoded(OneType(f), 0, OneSlot(f, Many([])));
    DecodesEncoded(OneType(g), 0, OneSlot(g, Dict([])));
  }

  /** The key false comes back as true. */
  lemma FalseKeyLost()
    ensures var f := Field(1, MapOf(Scalar.Bool), Basic(Int32));
            var S, m := OneType(f), OneSlot(f, Dict([Pair(Flag(false), Num(1))]));
            && SchemaOk(S) && Conforms(S, 0, m) && Encoded(S, 0, m) == [10, 4, 8, 1, 16, 1]
            && Decoded(S, 0, Encoded(S, 0, m)) == Ok(OneSlot(f, Dict([Pair(Flag(true), Num(1))])), 6)
  {
    hide Decoded, Encoded, ReadBack, Conforms, SchemaOk, RecordsBytes;
    var f, es := Field(1, MapOf(Scalar.Bool), Basic(Int32)), [Pair(Flag(false), Num(1))];
    var S := OneType(f);
    assert EntriesOk(S, f, es) && EntriesOk(S, f, es[1..]);
    OneConforms(f, Dict(es));
    OneEntry(S, f);
    DecodesEncoded(S, 0, OneSlot(f, Dict(es)));
    assert ReadEntries(es) == [Pair(Flag(true), Num(1))];
    assert PutAll([], ReadEntries(es)) == [Pair(Flag(true), Num(1))];
  }

  lemma OneEntry(S: Schema, f: Field)
    requires f == Field(1, MapOf(Scalar.Bool), Basic(Int32))
    ensures RecordsBytes(S, EntryRecords(S, f, [Pair(Flag(false), Num(1))])) == [10, 4, 8, 1, 16, 1]
  {
    var items := [KeyItem(Flag(true)), ValueItem(Num(1))];
    var rec := Entry(f, items);
    assert EntryRecord(S, f, Pair(Flag(false), Num(1))) == rec;
    assert ItemBytes(S, f, items[0]) == [8, 1] && ItemBytes(S, f, items[1]) == [16, 1];
    assert ItemsBytes(S, f, items) == [8, 1] + ([16, 1] + []) by { assert items[1..][1..] == []; }
    assert RecordBytes(S, rec) == [10] + ([4] + [8, 1, 16, 1]);
    assert EntryRecords(S, f, [Pair(Flag(false), Num(1))]) == [rec] && [rec][1..] == [];
    assert RecordsBytes(S, [rec]) == RecordBytes(S, rec) + [];
  }

  /** A string for which the reader repeats a stale unit comes back different. */
  lemma StringLost()
    ensures var f := Field(1, Optional, Basic(Scalar.String));
            var S, m := OneType(f), OneSlot(f, One(Value.Text(Dragging())));
            && SchemaOk(S) && Conforms(S, 0, m) && !Tidy(m)
            && Decoded(S, 0, Encoded(S, 0, m)) == Ok(OneSlot(f, One(Value.Text(Reread(Dragging())))), |Encoded(S, 0, m)|)
            && Reread(Dragging()) != Dragging()
  {
    hide Decoded, Encoded, ReadBack, Conforms, SchemaOk, RecordsBytes, Dragging, Reread, ReadsBack, Utf8;
    var f := Field(1, Optional, Basic(Scalar.String));
    var s, S := Dragging(), OneType(f);
    LongStringsMayNot();
    RereadIs(s);
    OneConforms(f, One(Value.Text(s)));
    DraggingSize();
    Utf8Size(s);
    OneString(S, f, s);
    var m := OneSlot(f, One(Value.Text(s)));
    assert 1 in m.slots && !TidySlot(m.slots[1]);
    DecodesEncoded(S, 0, OneSlot(f, One(Value.Text(s))));
  }

  lemma OneString(S: Schema, f: Field, s: units)
    requires f == Field(1, Optional, Basic(Scalar.String)) && |Utf8(s)| < TWO32
    ensures |RecordsBytes(S, [Leaf(f, Value.Text(s))])| <= 6 + |Utf8(s)|
  {
    hide Utf8, Varint;
    var recs := [Leaf(f, Value.Text(s))];
    assert recs[1..] == [];
    ShortVarint(|Utf8(s)|);
    assert Tag(1, 2) == [10] by { TenIs(); }
  }

  lemma TenIs()
    ensures Varint(10) == [10]
  {}

  /** A message whose decoder ends one byte behind its bytes. */
  lemma EndsBehind()
    ensures var f := Field(1, Optional, Basic(Int64));
            var r := Decoded(OneType(f), 0, [8, 128, 128, 128]);
            r.Ok? && r.pos == 5
  {
    var f, buf := Field(1, Optional, Basic(Int64)), [8, 128, 128, 128];
    assert Tag(1, 0) == [8] && buf == [8] + [128, 128, 128];
    assert SchemaOk(OneType(f));
    LastFieldOverruns(OneType(f), 0, f, buf, 0, map[]);
  }
}
