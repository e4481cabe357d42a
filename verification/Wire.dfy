/** The wire as a tree of records, its bytes, and the message it denotes. */
module Wire {
  import opened Bits
  import opened Buffers
  import opened Varints
  import opened Long
  import opened Readers
  import opened Writers
  import opened Messages

  /** The body of a field no schema knows. */
  datatype Raw =
    | RawVarint(bytes: seq<byte>)
    | RawFixed64(bytes: seq<byte>)
    | RawDelimited(bytes: seq<byte>)
    | RawGroup(fields: seq<RawField>)
    | RawFixed32(bytes: seq<byte>)

  datatype RawField = RawField(id: nat, raw: Raw)

  /** One field record: a scalar, a packed run, a submessage or group, a map entry, or a
      field the schema does not know. */
  datatype Record =
    | Leaf(f: Field, v: Value)
    | Packed(f: Field, vs: seq<Value>)
    | Sub(f: Field, body: seq<Record>)
    | Entry(f: Field, items: seq<Item>)
    | Unknown(field: RawField)

  /** The fields of a map entry: 1 is the key and 2 the value. */
  datatype Item =
    | KeyItem(v: Value)
    | ValueItem(v: Value)
    | BodyItem(body: seq<Record>)
    | OtherItem(field: RawField)

  function Tag(id: nat, wireType: nat): (r: seq<byte>)
    ensures |r| >= 1
  {
    Varint(ToUint32(id * 8 + wireType))
  }

  function Delimited(bytes: seq<byte>): (r: seq<byte>)
    ensures |r| > |bytes|
  {
    Varint(ToUint32(|bytes|)) + bytes
  }

  function RawType(raw: Raw): nat {
    match raw
    case RawVarint(_) => 0
    case RawFixed64(_) => 1
    case RawDelimited(_) => 2
    case RawGroup(_) => 3
    case RawFixed32(_) => 5
  }

  function RawBytes(f: RawField): (r: seq<byte>)
    decreases f, 0
  {
    match f.raw
    case RawDelimited(bytes) => Delimited(bytes)
    case RawGroup(fields) => RawsBytes(fields) + Tag(f.id, 4)
    case _ => f.raw.bytes
  }

  function RawFieldBytes(f: RawField): (r: seq<byte>)
    ensures |r| >= 1
    decreases f, 1
  {
    Tag(f.id, RawType(f.raw)) + RawBytes(f)
  }

  function RawsBytes(fs: seq<RawField>): (r: seq<byte>)
    decreases fs
  {
    if fs == [] then [] else RawFieldBytes(fs[0]) + RawsBytes(fs[1..])
  }

  function ScalarsBytes(s: Scalar, vs: seq<Value>): (r: seq<byte>) {
    if vs == [] then [] else ScalarBytes(s, vs[0]) + ScalarsBytes(s, vs[1..])
  }

  predicate IsGroup(S: Schema, ty: FieldType) {
    ty.Ref? && ty.index < |S| && S[ty.index].group
  }

  function ScalarOf(ty: FieldType): (s: Scalar) {
    if ty.Basic? then ty.scalar else Int32
  }

  function RecordBytes(S: Schema, rec: Record): (r: seq<byte>)
    ensures |r| >= 1
    decreases rec
  {
    match rec
    case Leaf(f, v) => Tag(f.id, WireType(ScalarOf(f.ty))) + ScalarBytes(ScalarOf(f.ty), v)
    case Packed(f, vs) => Tag(f.id, 2) + Delimited(ScalarsBytes(ScalarOf(f.ty), vs))
    case Sub(f, body) =>
      if IsGroup(S, f.ty) then Tag(f.id, 3) + RecordsBytes(S, body) + Tag(f.id, 4)
      else Tag(f.id, 2) + Delimited(RecordsBytes(S, body))
    case Entry(f, items) => Tag(f.id, 2) + Delimited(ItemsBytes(S, f, items))
    case Unknown(field) => RawFieldBytes(field)
  }

  function RecordsBytes(S: Schema, recs: seq<Record>): (r: seq<byte>)
    decreases recs
  {
    if recs == [] then [] else RecordBytes(S, recs[0]) + RecordsBytes(S, recs[1..])
  }

  function KeyType(f: Field): (s: Scalar) {
    if f.rule.MapOf? then f.rule.key else Int32
  }

  function ItemBytes(S: Schema, f: Field, item: Item): (r: seq<byte>)
    ensures |r| >= 1
    decreases item
  {
    match item
    case KeyItem(v) => Tag(1, WireType(KeyType(f))) + ScalarBytes(KeyType(f), v)
    case ValueItem(v) => Tag(2, WireType(ScalarOf(f.ty))) + ScalarBytes(ScalarOf(f.ty), v)
    case BodyItem(body) => Tag(2, 2) + Delimited(RecordsBytes(S, body))
    case OtherItem(field) => RawFieldBytes(field)
  }

  function ItemsBytes(S: Schema, f: Field, items: seq<Item>): (r: seq<byte>)
    decreases items
  {
    if items == [] then [] else ItemBytes(S, f, items[0]) + ItemsBytes(S, f, items[1..])
  }

  // What the records mean.

  type Slots = map<nat, Slot>

  function Elements(acc: Slots, id: nat): (vs: seq<Value>) {
    if id in acc && acc[id].Many? then acc[id].vs else []
  }

  function Entries(acc: Slots, id: nat): (es: seq<Pair>) {
    if id in acc && acc[id].Dict? then acc[id].entries else []
  }

  /** A repeated field grows, any other takes the later value. */
  function AddValue(acc: Slots, f: Field, v: Value): (r: Slots) {
    acc[f.id := if f.rule.Repeated? then Many(Elements(acc, f.id) + [v]) else One(v)]
  }

  /** `map[k] = v` */
  function PutEntry(es: seq<Pair>, k: Value, v: Value): (r: seq<Pair>) {
    if es == [] then [Pair(k, v)]
    else if es[0].key == k then [Pair(k, v)] + es[1..]
    else [es[0]] + PutEntry(es[1..], k, v)
  }

  function DefaultOf(ty: FieldType): (v: Value) {
    if ty.Basic? then Default(ty.scalar) else Null
  }

  function Apply(S: Schema, acc: Slots, rec: Record): (r: Slots)
    decreases rec
  {
    match rec
    case Leaf(f, v) => AddValue(acc, f, AsRead(v))
    case Packed(f, vs) => acc[f.id := Many(Elements(acc, f.id) + vs)]
    case Sub(f, body) => AddValue(acc, f, Nested(Message(Fold(S, map[], body))))
    case Entry(f, items) =>
      var Pair(k, v) := FoldItems(S, f, items, Pair(Default(KeyType(f)), DefaultOf(f.ty)));
      acc[f.id := Dict(PutEntry(Entries(acc, f.id), k, v))]
    case Unknown(_) => acc
  }

  function Fold(S: Schema, acc: Slots, recs: seq<Record>): (r: Slots)
    decreases recs
  {
    if recs == [] then acc else Fold(S, Apply(S, acc, recs[0]), recs[1..])
  }

  function FoldItems(S: Schema, f: Field, items: seq<Item>, kv: Pair): (r: Pair)
    decreases items
  {
    if items == [] then kv
    else FoldItems(S, f, items[1..], ApplyItem(S, f, items[0], kv))
  }

  function ApplyItem(S: Schema, f: Field, item: Item, kv: Pair): (r: Pair)
    decreases item
  {
    match item
    case KeyItem(v) => Pair(AsRead(v), kv.val)
    case ValueItem(v) => Pair(kv.key, AsRead(v))
    case BodyItem(body) => Pair(kv.key, Nested(Message(Fold(S, map[], body))))
    case OtherItem(_) => kv
  }

  /** The required fields that a message lacks, in declaration order. */
  function FirstMissing(fields: seq<Field>, slots: Slots): (r: seq<nat>) {
    if fields == [] then []
    else if fields[0].rule.Required? && fields[0].id !in slots then [fields[0].id]
    else FirstMissing(fields[1..], slots)
  }
}
