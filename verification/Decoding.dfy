/** The decoder that is generated for a message type, as an interpreter of its schema. */
module Decoding {
  import opened Bits
  import opened Buffers
  import opened Varints
  import opened Long
  import opened Readers
  import opened Writers
  import opened Messages
  import opened Wire

  datatype Lookup = Found(f: Field) | NotFound

  function FieldById(fields: seq<Field>, id: nat): (r: Lookup)
    ensures r.Found? ==> r.f in fields && r.f.id == id
  {
    if fields == [] then NotFound
    else if fields[0].id == id then Found(fields[0])
    else FieldById(fields[1..], id)
  }

  /** Every reference leads to a type of the root. */
  ghost predicate Closed(S: Schema) {
    forall j, f :: 0 <= j < |S| && f in S[j].fields && f.ty.Ref? ==> f.ty.index < |S|
  }

  /** A read from pos on may only step over the end behind three continuation bytes. */
  predicate Overruns(buf: seq<byte>, pos: nat) {
    pos > |buf| || (pos + 3 <= |buf| && EndsOpen(buf))
  }

  /** types[j].decode(r, c - r.pos), from the position pos on. */
  function DecodeMessage(S: Schema, j: nat, buf: seq<byte>, pos: nat, c: nat): (r: Read<Message>)
    requires Closed(S) && j < |S| && pos <= |buf| + 1
    ensures r.Ok? ==> pos <= r.pos <= |buf| + 1 && (r.pos == |buf| + 1 ==> Overruns(buf, pos))
    decreases |buf| + 2 - pos, 1
  {
    match DecodeLoop(S, j, buf, pos, c, map[])
    case Err(e) => Err(e)
    case Ok(slots, p) =>
      var missing := FirstMissing(S[j].fields, slots);
      if missing != [] then Err(MissingRequired(missing[0])) else Ok(Message(slots), p)
  }

  function DecodeLoop(S: Schema, j: nat, buf: seq<byte>, pos: nat, c: nat, acc: Slots): (r: Read<Slots>)
    requires Closed(S) && j < |S| && pos <= |buf| + 1
    ensures r.Ok? ==> pos <= r.pos <= |buf| + 1 && (r.pos == |buf| + 1 ==> Overruns(buf, pos))
    decreases |buf| + 2 - pos, 0
  {
    if pos >= c then Ok(acc, pos)
    else
      match ReadU32(buf, pos)
      case Err(e) => Err(e)
      case Ok(t, p) =>
        if S[j].group && t % 8 == 4 then Ok(acc, p)
        else
          match DecodeField(S, j, buf, p, t, acc)
          case Err(e) => Err(e)
          case Ok(acc', q) => DecodeLoop(S, j, buf, q, c, acc')
  }

  /** The switch over the field number of the tag t. */
  function DecodeField(S: Schema, j: nat, buf: seq<byte>, pos: nat, t: nat, acc: Slots): (r: Read<Slots>)
    requires Closed(S) && j < |S| && pos <= |buf|
    ensures r.Ok? ==> pos <= r.pos <= |buf| + 1 && (r.pos == |buf| + 1 ==> Overruns(buf, pos))
    decreases |buf| + 2 - pos, 3
  {
    match FieldById(S[j].fields, t / 8)
    case NotFound =>
      (match SkipType(buf, pos, t % 8)
       case Err(e) => Err(e)
       case Ok(_, p) => Ok(acc, p))
    case Found(f) =>
      if f.rule.MapOf? then
        match ReadU32(buf, pos)
        case Err(e) => Err(e)
        case Ok(n, p) =>
          match EntryLoop(S, f, buf, p, p + n, Pair(Default(KeyType(f)), DefaultOf(f.ty)))
          case Err(e) => Err(e)
          case Ok(kv, q) => Ok(acc[f.id := Dict(PutEntry(Entries(acc, f.id), kv.key, kv.val))], q)
      else if f.rule.Repeated? && f.ty.Basic? && Packable(f.ty.scalar) && t % 8 == 2 then
        match ReadU32(buf, pos)
        case Err(e) => Err(e)
        case Ok(n, p) =>
          match PackedLoop(f.ty.scalar, buf, p, p + n, Elements(acc, f.id))
          case Err(e) => Err(e)
          case Ok(vs, q) => Ok(acc[f.id := Many(vs)], q)
      else
        match DecodeValue(S, f.ty, buf, pos, IsGroup(S, f.ty))
        case Err(e) => Err(e)
        case Ok(v, q) => Ok(AddValue(acc, f, v), q)
  }

  /** One value; a submessage has its length first, a group runs to its end tag. */
  function DecodeValue(S: Schema, ty: FieldType, buf: seq<byte>, pos: nat, group: bool): (r: Read<Value>)
    requires Closed(S) && (ty.Ref? ==> ty.index < |S|) && pos <= |buf| + 1
    ensures r.Ok? ==> pos <= r.pos <= |buf| + 1 && (r.pos == |buf| + 1 ==> Overruns(buf, pos))
    decreases |buf| + 2 - pos, 2
  {
    if ty.Basic? then ReadScalar(ty.scalar, buf, pos)
    else if group then
      match DecodeMessage(S, ty.index, buf, pos, |buf|)
      case Err(e) => Err(e)
      case Ok(m, p) => Ok(Nested(m), p)
    else
      match ReadU32(buf, pos)
      case Err(e) => Err(e)
      case Ok(n, p) =>
        match DecodeMessage(S, ty.index, buf, p, p + n)
        case Err(e) => Err(e)
        case Ok(m, q) => Ok(Nested(m), q)
  }

  function PackedLoop(s: Scalar, buf: seq<byte>, pos: nat, c: nat, vs: seq<Value>): (r: Read<seq<Value>>)
    requires pos <= |buf| + 1
    ensures r.Ok? ==> pos <= r.pos <= |buf| + 1 && (r.pos == |buf| + 1 ==> Overruns(buf, pos))
    decreases |buf| + 2 - pos
  {
    if pos >= c then Ok(vs, pos)
    else
      match ReadScalar(s, buf, pos)
      case Err(e) => Err(e)
      case Ok(v, p) => PackedLoop(s, buf, p, c, vs + [v])
  }

  function EntryLoop(S: Schema, f: Field, buf: seq<byte>, pos: nat, c: nat, kv: Pair): (r: Read<Pair>)
    requires Closed(S) && (f.ty.Ref? ==> f.ty.index < |S|) && pos <= |buf| + 1
    ensures r.Ok? ==> pos <= r.pos <= |buf| + 1 && (r.pos == |buf| + 1 ==> Overruns(buf, pos))
    decreases |buf| + 2 - pos, 0
  {
    if pos >= c then Ok(kv, pos)
    else
      match ReadU32(buf, pos)
      case Err(e) => Err(e)
      case Ok(t, p) =>
        match EntryField(S, f, buf, p, t, kv)
        case Err(e) => Err(e)
        case Ok(kv', q) => EntryLoop(S, f, buf, q, c, kv')
  }

  function EntryField(S: Schema, f: Field, buf: seq<byte>, pos: nat, t: nat, kv: Pair): (r: Read<Pair>)
    requires Closed(S) && (f.ty.Ref? ==> f.ty.index < |S|) && pos <= |buf|
    ensures r.Ok? ==> pos <= r.pos <= |buf| + 1 && (r.pos == |buf| + 1 ==> Overruns(buf, pos))
    decreases |buf| + 2 - pos, 3
  {
    if t / 8 == 1 then
      match ReadScalar(KeyType(f), buf, pos)
      case Err(e) => Err(e)
      case Ok(k, p) => Ok(Pair(k, kv.val), p)
    else if t / 8 == 2 then
      match DecodeValue(S, f.ty, buf, pos, false)
      case Err(e) => Err(e)
      case Ok(v, p) => Ok(Pair(kv.key, v), p)
    else
      match SkipType(buf, pos, t % 8)
      case Err(e) => Err(e)
      case Ok(_, p) => Ok(kv, p)
  }
}
