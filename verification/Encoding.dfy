/** The encoder that is generated for a message type, as the records it writes, and what
    decoding makes of them. */
module Encoding {
  import opened Bits
  import opened Buffers
  import opened Varints
  import opened Utf8Codec
  import opened Messages
  import opened Wire
  import opened Decoding
  import opened DecodingTheorems

  /** `fieldsArray.slice().sort(compareFieldsById)` */
  function SortById(fields: seq<Field>): (r: seq<Field>) {
    if fields == [] then [] else Insert(fields[0], SortById(fields[1..]))
  }

  function Insert(f: Field, fields: seq<Field>): (r: seq<Field>) {
    if fields == [] || f.id <= fields[0].id then [f] + fields
    else [fields[0]] + Insert(f, fields[1..])
  }

  /** Object.keys yields strings, and the string "false" is written as true. */
  function WrittenKey(k: Value): (r: Value) {
    if k.Flag? then Flag(true) else k
  }

  /** The records that encode writes for a message, field by field in id order. */
  function Tree(S: Schema, j: nat, m: Message): (r: seq<Record>)
    decreases m, 2, 0
  {
    if j < |S| then FieldsTree(S, SortById(S[j].fields), m) else []
  }

  function FieldsTree(S: Schema, fields: seq<Field>, m: Message): (r: seq<Record>)
    decreases m, 1, |fields|
  {
    if fields == [] then [] else FieldTree(S, fields[0], m) + FieldsTree(S, fields[1..], m)
  }

  function FieldTree(S: Schema, f: Field, m: Message): (r: seq<Record>)
    decreases m, 0, 0
  {
    if f.id in m.slots then SlotTree(S, f, m.slots[f.id]) else []
  }

  function SlotTree(S: Schema, f: Field, slot: Slot): (r: seq<Record>)
    decreases slot
  {
    match slot
    case One(v) => [ValueRecord(S, f, v)]
    case Many(vs) =>
      if vs != [] && f.rule == Repeated(true) && f.ty.Basic? && Packable(f.ty.scalar) then [Packed(f, vs)]
      else ValueRecords(S, f, vs)
    case Dict(es) => EntryRecords(S, f, es)
  }

  function ValueRecord(S: Schema, f: Field, v: Value): (r: Record)
    decreases v
  {
    if f.ty.Basic? then Leaf(f, v) else Sub(f, if v.Nested? then Tree(S, f.ty.index, v.m) else [])
  }

  function ValueRecords(S: Schema, f: Field, vs: seq<Value>): (r: seq<Record>)
    decreases vs
  {
    if vs == [] then [] else [ValueRecord(S, f, vs[0])] + ValueRecords(S, f, vs[1..])
  }

  function EntryRecords(S: Schema, f: Field, es: seq<Pair>): (r: seq<Record>)
    decreases es
  {
    if es == [] then [] else [EntryRecord(S, f, es[0])] + EntryRecords(S, f, es[1..])
  }

  function EntryRecord(S: Schema, f: Field, e: Pair): (r: Record)
    decreases e
  {
    Entry(f, [KeyItem(WrittenKey(e.key)), EntryItem(S, f, e.val)])
  }

  function EntryItem(S: Schema, f: Field, v: Value): (r: Item)
    decreases v
  {
    if f.ty.Basic? then ValueItem(v) else BodyItem(if v.Nested? then Tree(S, f.ty.index, v.m) else [])
  }

  /** The bytes that encode hands to the writer. */
  function Encoded(S: Schema, j: nat, m: Message): (r: seq<byte>) {
    RecordsBytes(S, Tree(S, j, m))
  }

  // Which messages belong to a type.

  predicate MapKeyType(s: Scalar) {
    !s.Double? && !s.Float? && !s.Bytes?
  }

  /** All the properties of m are fields of the type, with values of the field types, and
      no required field is missing. */
  ghost predicate Conforms(S: Schema, j: nat, m: Message)
    decreases m, 1
  {
    && j < |S|
    && (forall id :: id in m.slots ==> FieldById(S[j].fields, id).Found?)
    && (forall f :: f in S[j].fields ==> FieldOk(S, f, m))
  }

  ghost predicate FieldOk(S: Schema, f: Field, m: Message)
    decreases m, 0
  {
    if f.id in m.slots then SlotOk(S, f, m.slots[f.id]) else !f.rule.Required?
  }

  ghost predicate SlotOk(S: Schema, f: Field, slot: Slot)
    decreases slot
  {
    match slot
    case One(v) => (f.rule.Optional? || f.rule.Required?) && ValueOk(S, f.ty, v)
    case Many(vs) => f.rule.Repeated? && ValuesOk(S, f.ty, vs)
    case Dict(es) => f.rule.MapOf? && MapKeyType(f.rule.key) && EntriesOk(S, f, es) && DistinctKeys(es)
  }

  ghost predicate ValueOk(S: Schema, ty: FieldType, v: Value)
    decreases v
  {
    if ty.Basic? then InRange(ty.scalar, v) else v.Nested? && Conforms(S, ty.index, v.m)
  }

  ghost predicate ValuesOk(S: Schema, ty: FieldType, vs: seq<Value>)
    decreases vs
  {
    vs == [] || (ValueOk(S, ty, vs[0]) && ValuesOk(S, ty, vs[1..]))
  }

  ghost predicate EntriesOk(S: Schema, f: Field, es: seq<Pair>)
    decreases es
  {
    es == [] || (EntryOk(S, f, es[0]) && EntriesOk(S, f, es[1..]))
  }

  ghost predicate EntryOk(S: Schema, f: Field, e: Pair)
    decreases e
  {
    InRange(KeyType(f), e.key) && ValueOk(S, f.ty, e.val)
  }

  ghost predicate DistinctKeys(es: seq<Pair>) {
    forall i, k :: 0 <= i < k < |es| ==> es[i].key != es[k].key
  }

  // What comes back.

  predicate Empty(slot: Slot) {
    slot == Many([]) || slot == Dict([])
  }

  function PutAll(es: seq<Pair>, more: seq<Pair>): (r: seq<Pair>)
    decreases |more|
  {
    if more == [] then es else PutAll(PutEntry(es, more[0].key, more[0].val), more[1..])
  }

  /** A decoded message that takes in the fields of a later one: single fields and
      submessages are replaced, lists appended, map entries put. Empty lists and maps
      leave no trace. */
  function Absorb(acc: Slots, m: Message): (r: Slots)
    decreases m, 1
  {
    acc + map id | id in m.slots && !Empty(m.slots[id]) :: AbsorbSlot(acc, id, m.slots[id])
  }

  function AbsorbSlot(acc: Slots, id: nat, slot: Slot): (r: Slot)
    decreases slot
  {
    match slot
    case One(v) => One(ReadValue(v))
    case Many(vs) => Many(Elements(acc, id) + ReadValues(vs))
    case Dict(es) => Dict(PutAll(Entries(acc, id), ReadEntries(es)))
  }

  function ReadValue(v: Value): (r: Value)
    decreases v
  {
    if v.Nested? then Nested(Message(Absorb(map[], v.m))) else AsRead(v)
  }

  function ReadValues(vs: seq<Value>): (r: seq<Value>)
    ensures |r| == |vs|
    decreases vs
  {
    if vs == [] then [] else [ReadValue(vs[0])] + ReadValues(vs[1..])
  }

  function ReadEntries(es: seq<Pair>): (r: seq<Pair>)
    decreases es
  {
    if es == [] then [] else [ReadEntry(es[0])] + ReadEntries(es[1..])
  }

  function ReadEntry(e: Pair): (r: Pair)
    decreases e
  {
    Pair(AsRead(WrittenKey(e.key)), ReadValue(e.val))
  }

  /** The message as it comes back. */
  function ReadBack(m: Message): (r: Message) {
    Message(Absorb(map[], m))
  }

  // Sorting keeps the fields.

  lemma {:induction false} InsertKeeps(f: Field, fields: seq<Field>, g: Field)
    ensures g in Insert(f, fields) <==> g == f || g in fields
  {
    if fields != [] && fields[0].id < f.id {
      InsertKeeps(f, fields[1..], g);
      assert g in fields <==> g == fields[0] || g in fields[1..];
    }
  }

  ghost predicate Ascending(fields: seq<Field>) {
    fields == [] || ((forall g :: g in fields[1..] ==> fields[0].id < g.id) && Ascending(fields[1..]))
  }

  lemma {:induction false} InsertAscends(f: Field, fields: seq<Field>)
    requires Ascending(fields) && forall g :: g in fields ==> g.id != f.id
    ensures Ascending(Insert(f, fields))
  {
    if fields == [] {
    } else if f.id <= fields[0].id {
      assert ([f] + fields)[1..] == fields;
      forall g | g in fields ensures f.id < g.id {
        assert g == fields[0] || g in fields[1..];
      }
    } else {
      var r := Insert(f, fields[1..]);
      InsertAscends(f, fields[1..]);
      assert ([fields[0]] + r)[1..] == r;
      forall g | g in r ensures fields[0].id < g.id { InsertKeeps(f, fields[1..], g); }
    }
  }

  lemma {:induction false} SortAscends(fields: seq<Field>)
    requires DistinctIds(fields)
    ensures Ascending(SortById(fields)) && forall f :: f in SortById(fields) <==> f in fields
  {
    hide Insert;
    if fields != [] {
      SortAscends(fields[1..]);
      forall g ensures g in SortById(fields) <==> g in fields {
        InsertKeeps(fields[0], SortById(fields[1..]), g);
        assert g in fields <==> g == fields[0] || g in fields[1..];
      }
      forall g | g in SortById(fields[1..]) ensures g.id != fields[0].id {
        var k :| 0 <= k < |fields[1..]| && fields[1..][k] == g;
        assert fields[k + 1] == g;
      }
      InsertAscends(fields[0], SortById(fields[1..]));
    }
  }
}
