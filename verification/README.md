# Verification of the codec, the selector cache, the callbacks, the shim and the state group

The project models the algorithmic cores of the repository in Dafny and proves what they
promise: the protobuf wire codec (`html/js/proto/protobuf.js`) with its Writer, Reader,
64-bit halves, UTF-8, base64 and buffer pool; the combinator cache of the selector engine
and the callback lists and deferred objects (`html/lib/jquery-1.12.4.js`); the peer
connection shim, the candidate lines and the statistics filter
(`html/lib/adapter-latest.js`); the base64 encoder of the file sender
(`html/js/sendfile.js`); and the room state group (`AbstractStateGroup.java`).
`dafny verify dfyconfig.toml` checks everything.

How the parts fit together:

- `Bits`, `Buffers` and `Varints` define the JavaScript 32-bit operators on integers, byte
  strings inside buffers, and the one varint form that every reader and writer is held
  against. `Long`, `Utf8Codec`, `Readers` and `Writers` are the imperative pieces of the codec:
  linked operations with a fork stack, a moving position, halves rewritten in place.
  `WriterRuns` holds whole runs of Writer calls against a stack of byte strings.
- `Messages` and `Wire` define schemas, messages, and the tree of records that a run of bytes
  stands for. `Decoding` is the generated decoder as an interpreter of its schema, and
  `DecodingTheorems` proves what it makes of every well-formed tree. `Encoding` gives the
  records that the generated encoder writes, `EncodingTheorems` the round trip and the merge,
  `Untidy` the messages that do not come back, `Returned` what every decoded message is like,
  `OlderReaders` what a reader makes of fields that it does not know, and `MessageCodec` runs
  both over the Writer and the Reader classes.
- `Descriptions` are the lines of a session description and its sections. `Transceivers`,
  `Tracks` and `Offers` say what each call of the peer connection makes of the transceivers and
  when it throws; `PeerConnection` holds the objects, with every method proved against them.
  `Negotiation` and `Exchange` prove what several calls in a row keep, and `Failures` has the
  inputs on which they do not.
- `Base64`, `Pool`, `Combinators`, `Callbacks`, `StatsWalk`, `Candidates` and `StateGroup`
  stand alone, one for each of the other parts.

Where the code does not do what its documentation or its tests suggest, the model follows the
code, and the exact condition is proved:

- A message with a present but empty list or map, or with the map key `false`, does not
  survive a round trip (`EncodingTheorems.RoundTrip`, `Untidy.EmptyLost`, `Untidy.FalseKeyLost`).
- A submessage that occurs twice is replaced and not merged (`EncodingTheorems.Concatenation`).
- The UTF-8 reader can repeat a stale unit of its chunk in long strings with surrogate pairs
  (`Utf8Codec.RoundTrip`, `Utf8Codec.LongStringsMayNot`), so that messages with such a string
  do not come back either (`EncodingTheorems.RoundTrip`, `Untidy.StringLost`).
- The 32-bit reader loses its place on varints of six to nine bytes
  (`Varints.ReadU32OfVarint`, `Varints.SwallowsFour`), and the slow route of the 64-bit reader
  steps one byte past the buffer behind three continuation bytes (`Varints.ReadU64`,
  `Varints.StepsOver`).
- A second `finish` of a Writer writes other bytes when a long varint was pushed
  (`Writers.Writer.FinishTwice`, `WriterRuns.FinishesDiffer`).
- A transceiver that is reused for an offered section keeps its own kind, so that an audio
  section may be answered by a video section (`Negotiation.OfferThenAnswer`,
  `Failures.AnswerOfAnotherKind`).
- A remote offer that throws half-way leaves its mids on the transceivers while an earlier offer
  stays open (`Negotiation.Reoffer`, `Failures.BrokenReoffer`).
- With BUNDLE the live sections behind a refused first one have no transports and cannot be
  answered (`Exchange.NewOffer`, `Failures.StrandedSection`).
- The state group ignores the code that `finishOnError` returns, so that a failing state keeps
  its place, and `setCurrentState` clears the current state before it throws
  (`StateGroup.Group.Serve`, `StateGroup.Group.SetCurrentState`).

## Model

| member | source | states |
|---|---|---|
| `EncodingTheorems.RoundTrip` | html/js/proto/protobuf.js:1824-2037 | for every schema with distinct field ids below 2^29 and every conforming message (nested messages and groups, packed and unpacked lists, maps, any strings), decoding the encoding returns the same message with the same fields present if and only if the message is tidy at every depth: no present empty list, no present empty map, no map key `false`, no string, map keys included, for which the UTF-8 reader repeats a stale unit |
| `EncodingTheorems.DecodesEncoded` | html/js/proto/protobuf.js:1824-2037 | whatever the message, its encoding never fails to decode, is consumed exactly, and comes back as itself without those leftovers; the key `false` comes back as `true`, and every string as the UTF-8 reader reads it |
| `EncodingTheorems.Concatenation` | html/js/proto/protobuf.js:1839-1914 | two encodings one behind the other decode to the first message, as it comes back, taking in the second: single fields and submessages replaced, lists appended, maps put key by key; holds with required fields too |
| `EncodingTheorems.MapsOverride` | html/js/proto/protobuf.js:1881-1884 | taking in map entries overrides exactly the keys that come later and keeps all others |
| `EncodingTheorems.FoldTree` | html/js/proto/protobuf.js:1965-2037 | the records that the encoder writes in id order mean the same as taking in all fields of the message at once |
| `EncodingTheorems.TreeOk` | html/js/proto/protobuf.js:1965-2037 | what the encoder writes for a conforming message is well-formed at every depth and lacks no required field |
| `EncodingTheorems.PackedWhen` | html/js/proto/protobuf.js:2001-2014 | a list is one run of bytes if and only if its field is packed and of a scalar type other than strings and bytes; otherwise each value has its tag |
| `EncodingTheorems.SubmessageBytes` | html/js/proto/protobuf.js:1954-1958 | a submessage is its encoding behind its length, a group its encoding between its two tags |
| `EncodingTheorems.ExactMessage` | html/js/proto/protobuf.js:1986-2019 | a message comes back unchanged if and only if it is tidy |
| `EncodingTheorems.NeverFalse` | html/js/proto/protobuf.js:1986-1988 | no map with the key `false` survives: object keys are strings and the string "false" is written as true |
| `Encoding.SortAscends` | html/js/proto/protobuf.js:1974 | sorting by id yields exactly the fields of the type in strictly ascending order |
| `DecodingTheorems.DecodesRecords` | html/js/proto/protobuf.js:1829-1930 | decoding the bytes of any well-formed records, in any order, with unknown fields anywhere and at any depth, yields exactly what the records mean, or the error that names the first required field, in declaration order, that they lack (`DecodingTheorems.RecordsRefused` says which) |
| `DecodingTheorems.RecordsRefused` | html/js/proto/protobuf.js:1924-1930 | any well-formed records are decoded to the message that they mean if and only if it has every required field of its type; otherwise the error names the first absent one in declaration order |
| `DecodingTheorems.Refusal` | html/js/proto/protobuf.js:1924-1930 | on any bytes, once the fields of a message are read, it is returned if and only if every required field is there, and else the error names the first absent one in declaration order |
| `Returned.DecodedFormed` | html/js/proto/protobuf.js:1824-1935 | whatever the bytes, a message that decoding returns has at every depth every required field of its type, and otherwise only fields of its type, each in the form of its rule, with values in the range of its type and map keys that differ |
| `Returned.DecodedAgain` | html/js/proto/protobuf.js:1824-2037 | whatever the bytes, a message that decoding returns conforms to its type if and only if no map entry in it lacks its submessage; then encoding and decoding it again gives what it comes back as, and itself if and only if it is tidy |
| `Returned.ReadInRange` | html/js/proto/protobuf.js:4934-5175 | whatever the bytes, a scalar that is read is in the range of its type |
| `Returned.EmptyEntry` | html/js/proto/protobuf.js:1847-1884 | a map entry of no bytes puts the default of its types: zero numbers, zero bytes for floats, false, the empty string, no bytes, null for a submessage |
| `OlderReaders.ScalarSkipped` | html/js/proto/protobuf.js:7102-7118 | for every scalar type and every value of it, skipping by the wire type of the table ends exactly behind the value's bytes, anywhere in any buffer |
| `OlderReaders.OlderReader` | html/js/proto/protobuf.js:1916-1919 | a reader whose schema lacks any fields at any depth, packs lists otherwise or requires less, given any well-formed records that a reader with the whole schema accepts, returns the same message without the fields it lacks, at the same position |
| `OlderReaders.OlderReaderOfEncoded` | html/js/proto/protobuf.js:1824-2037 | so does it for every encoded message: what comes back, without the fields it lacks |
| `OlderReaders.RecordIsRaw` | html/js/proto/protobuf.js:1976-2032 | every record is, byte for byte, an unknown field of the wire type in its tag, groups at any depth included |
| `OlderReaders.SeenFold` | html/js/proto/protobuf.js:1829-1922 | records seen with a schema that lacks fields mean the message without these fields |
| `DecodingTheorems.UnknownFieldsIgnored` | html/js/proto/protobuf.js:1916-1919 | inserting well-formed unknown fields, nested balanced groups included, at any field boundary of any depth changes neither the decoded message nor whether decoding succeeds |
| `DecodingTheorems.KnownHasNone` | html/js/proto/protobuf.js:1916-1919 | without the unknown fields there is none left at any depth |
| `DecodingTheorems.KnownMeansSame` | html/js/proto/protobuf.js:1916-1919 | records mean the same with and without the fields the schema does not know |
| `DecodingTheorems.SkipRaw` | html/js/proto/protobuf.js:5203-5228 | skipping any well-formed field stops exactly at its end |
| `DecodingTheorems.SkipRaws` | html/js/proto/protobuf.js:5214-5217 | skipping a group stops exactly behind its end tag however deeply groups nest inside it |
| `DecodingTheorems.TagExact` | html/js/proto/protobuf.js:1980-2029 | field numbers below 2^29 are exactly those whose tags fit into 32 bits |
| `DecodingTheorems.LoopRecords` | html/js/proto/protobuf.js:1830-1922 | the field loop over any well-formed records, anywhere in any buffer, reaches their end with their meaning |
| `DecodingTheorems.BodyMessage` | html/js/proto/protobuf.js:1908-1910 | a length-delimited submessage is decoded to the end of its bytes and no further |
| `DecodingTheorems.GroupMessage` | html/js/proto/protobuf.js:1832-1834 | a group is decoded up to and including its end tag, whatever follows it |
| `DecodingTheorems.LoopItems` | html/js/proto/protobuf.js:1862-1879 | the entry loop yields key and value of a map entry in any order, the defaults where they are missing, the last where they repeat |
| `DecodingTheorems.PackedValues` | html/js/proto/protobuf.js:1893-1898 | a packed run appends exactly its values to the list |
| `Decoding.DecodeMessage` | html/js/proto/protobuf.js:1824-1935 | decoding terminates on every byte string with a message or an error; a message leaves the position inside the buffer, or one past it only when the last three bytes are continuation bytes |
| `Decoding.DecodeField` | html/js/proto/protobuf.js:1836-1921 | one turn of the switch over the field number never moves back, and leaves the buffer, by one byte, only behind three continuation bytes |
| `MessageCodec.ThereAndBack` | html/js/proto/protobuf.js:1824-2037 | the generated encoder run over a new Writer, finish, and the generated decoder run over a new Reader return the message, strings included, if and only if it is tidy |
| `MessageCodec.EncodeMessage` | html/js/proto/protobuf.js:1965-2037 | the encoder pushes onto the Writer's top state exactly the bytes of the message's records and leaves the other states and the fork depth as they were |
| `MessageCodec.EncodeField` | html/js/proto/protobuf.js:1976-2032 | one field, by its kind, pushes exactly its records |
| `MessageCodec.EncodeSlot` | html/js/proto/protobuf.js:1984-2031 | a map, a list or a single value, packed where the field says so |
| `MessageCodec.EncodeEntry` | html/js/proto/protobuf.js:1987-1994 | a map entry is forked and delimited, key first |
| `MessageCodec.EncodeDelimited` | html/js/proto/protobuf.js:1954-1958 | fork, encode and ldelim around a submessage add its length and its bytes |
| `MessageCodec.EncodeRun` | html/js/proto/protobuf.js:2004-2007 | a packed run is the concatenation of its scalars behind its length |
| `MessageCodec.EncodeScalar` | html/js/proto/protobuf.js:2006 | each scalar type calls the Writer method that yields its bytes |
| `MessageCodec.DecodeWith` | html/js/proto/protobuf.js:1829-1933 | the decoder's loops over the Reader compute exactly the specified result and position, errors included |
| `MessageCodec.DecodeInto` | html/js/proto/protobuf.js:1836-1921 | the switch over the field number, as specified |
| `MessageCodec.DecodeEntry` | html/js/proto/protobuf.js:1849-1879 | the loop over a map entry, as specified |
| `MessageCodec.DecodeRun` | html/js/proto/protobuf.js:1895-1897 | the loop over a packed run, as specified |
| `MessageCodec.Encode` | html/js/proto/protobuf.js:1965-2037 | encoding with a new Writer and finishing yields exactly the message's bytes; that every tag in them has the wire type by which a reader can skip the field is `OlderReaders.RecordIsRaw` |
| `MessageCodec.Decode` | html/js/proto/protobuf.js:1824-1935 | decoding a whole buffer with a new Reader gives the specified answer; when it is a message, `Returned.DecodedFormed` says what is in it, and which required field an error names is `DecodingTheorems.Refusal` |
| `Messages.ScalarRoundTrip` | html/js/proto/protobuf.js:4934-5258 | every value that a scalar type carries is read back from its bytes at any position of any buffer, consuming exactly those bytes; only a string may come back different, as the UTF-8 reader reads it |
| `Messages.Int32RoundTrip` | html/js/proto/protobuf.js:8589-8593 | every int32 survives, negative ones through ten bytes of which the reader skips five |
| `Messages.SInt32RoundTrip` | html/js/proto/protobuf.js:4964-4967 | every sint32 survives zig-zag |
| `Messages.Int64RoundTrip` | html/js/proto/protobuf.js:8623-8635 | every 64-bit integer survives, signed and unsigned |
| `Messages.SInt64RoundTrip` | html/js/proto/protobuf.js:8643-8646 | every sint64 survives zig-zag on two halves |
| `Messages.StringRoundTrip` | html/js/proto/protobuf.js:8753-8758 | any string with its length in front comes back as its UTF-8 form reads, and unchanged if and only if its blocks fit the reader's chunk |
| `Varints.ReadU64OfVarint` | html/js/proto/protobuf.js:4971-5022 | the fast and the slow route recover every number below 2^64 from its varint at any position and consume exactly it |
| `Varints.ReadU32OfVarint` | html/js/proto/protobuf.js:4934-4950 | the 32-bit read yields the low 32 bits of a varint whenever it returns, and stops exactly behind it if the varint has at most five or exactly ten bytes |
| `Varints.VarintLength` | html/js/proto/protobuf.js:7642-7655 | a varint has at most k + 1 bytes if and only if the number is below 128^(k + 1) |
| `Varints.ReadU32` | html/js/proto/protobuf.js:4934-4950 | a 32-bit read that returns moves forward and stays inside the buffer |
| `Varints.ReadU64` | html/js/proto/protobuf.js:4971-5022 | a 64-bit read that returns moves forward; it ends one byte past the buffer if and only if it starts three bytes before the end and these are continuation bytes, and never further |
| `Varints.StepsOver` | html/js/proto/protobuf.js:4984-4999 | three continuation bytes at the end are read as a value of four bytes |
| `Varints.SwallowsFour` | html/js/proto/protobuf.js:4934-4950 | behind a varint of six bytes the 32-bit read takes four bytes that are not its own |
| `DecodingTheorems.LastFieldOverruns` | html/js/proto/protobuf.js:1829-1922 | a last field that is a 64-bit varint of three continuation bytes ends the decoder one byte past its buffer, without an error |
| `DecodingTheorems.EndsInside` | html/js/proto/protobuf.js:1824-1935 | on any bytes, a decode that returns ends inside its buffer, or one byte behind it only when the last three bytes are continuation bytes |
| `Untidy.EndsBehind` | html/js/proto/protobuf.js:1824-1935 | four bytes on which a whole decode does so |
| `Untidy.EmptyLost` | html/js/proto/protobuf.js:1985-2019 | a conforming message with an empty list, or with an empty map, comes back without it |
| `Untidy.FalseKeyLost` | html/js/proto/protobuf.js:1986-1994 | a conforming message whose map has the key `false` comes back with the key `true` |
| `Untidy.StringLost` | html/js/proto/protobuf.js:1044-1075 | a conforming message with a string of 8191 units, a surrogate pair and 8192 units comes back with another string |
| `Long.NumberRoundTrip` | html/js/proto/protobuf.js:7510-7562 | the residue modulo 2^64 that the halves hold, read as a signed number, is the number again, and zig-zag stays below 2^64 and is undone, for every signed 64-bit integer |
| `Long.ZigZagInverse` | html/js/proto/protobuf.js:7620-7636 | zig-zag decoding inverts encoding on every integer |
| `Long.NumberThereAndBack` | html/js/proto/protobuf.js:7510-7562 | splitting any 64-bit integer into two halves and joining them returns it, signed or unsigned |
| `Long.ZigZagThereAndBack` | html/js/proto/protobuf.js:7510-7636 | zig-zag on the halves and back returns every signed 64-bit integer |
| `Long.LongBits.FromNumber` | html/js/proto/protobuf.js:7510-7528 | the two halves are the number modulo 2^64 in two's complement, carry included |
| `Long.LongBits.ToNumber` | html/js/proto/protobuf.js:7553-7562 | the signed or unsigned number that the halves stand for |
| `Long.LongBits.ZzEncode` | html/js/proto/protobuf.js:7620-7625 | zig-zag encoding in place on the halves equals the arithmetic definition |
| `Long.LongBits.ZzDecode` | html/js/proto/protobuf.js:7631-7636 | zig-zag decoding in place equals the arithmetic definition |
| `Long.LongBits.Length` | html/js/proto/protobuf.js:7642-7655 | the length table gives exactly the number of varint bytes |
| `Long.ZzEncode32` | html/js/proto/protobuf.js:8600-8602 | the 32-bit zig-zag expression equals the arithmetic definition |
| `Long.ZzDecode32` | html/js/proto/protobuf.js:4964-4967 | the 32-bit zig-zag decoding expression inverts it |
| `Readers.Reader.UInt32` | html/js/proto/protobuf.js:4934-4950 | the unrolled 32-bit read with its five bytes and skip equals the specified read, errors included |
| `Readers.Reader.ReadLongVarint` | html/js/proto/protobuf.js:4971-5022 | fast and slow routes over both halves equal the one specified 64-bit read |
| `Readers.Reader.Int32` | html/js/proto/protobuf.js:4956-4958 | low 32 bits as a signed number |
| `Readers.Reader.SInt32` | html/js/proto/protobuf.js:4964-4967 | zig-zag of the low 32 bits |
| `Readers.Reader.Bool` | html/js/proto/protobuf.js:5051-5053 | whether the low 32 bits are not 0 |
| `Readers.Reader.Int64` | html/js/proto/protobuf.js:5238-5244 | the number in the long varint |
| `Readers.Reader.SInt64` | html/js/proto/protobuf.js:5246-5248 | zig-zag of the long varint |
| `Readers.Reader.UFixed32` | html/js/proto/protobuf.js:5055-5073 | four little-endian bytes, with a range check |
| `Readers.Reader.UFixed64` | html/js/proto/protobuf.js:5090-5097 | eight little-endian bytes in two halves |
| `Readers.Reader.Bytes` | html/js/proto/protobuf.js:5151-5166 | a length and that many bytes, or out of range |
| `Readers.Reader.String` | html/js/proto/protobuf.js:5172-5175 | the UTF-8 reading of a byte field |
| `Readers.Reader.SkipOne` | html/js/proto/protobuf.js:5189-5193 | skips to behind the first byte without a continuation bit |
| `Readers.Reader.SkipField` | html/js/proto/protobuf.js:5203-5228 | the recursive skip, group loop included, equals its specification |
| `Writers.Writer.LDelim` | html/js/proto/protobuf.js:8793-8804 | yields the saved bytes, the varint of the forked length and the forked bytes, at every fork depth, by splicing the forked list |
| `Writers.Writer.Fork` | html/js/proto/protobuf.js:8765-8770 | puts the state aside and starts an empty one; all saved bytes are kept |
| `Writers.Writer.Reset` | html/js/proto/protobuf.js:8776-8787 | drops exactly the forked operations, or everything when nothing is forked |
| `Writers.Writer.Push` | html/js/proto/protobuf.js:8528-8532 | appends one operation to the list and its bytes to the top state; the invariant keeps len equal to the sum of the operation lengths at every stack level |
| `Writers.Writer.Finish` | html/js/proto/protobuf.js:8810-8821 | fills exactly len bytes from the list without gap or overlap; on a fresh writer these are the bytes of the top state |
| `Writers.Writer.FinishTwice` | html/js/proto/protobuf.js:8810-8821 | a second finish writes the same bytes if and only if no 64-bit value takes more than one byte, since writing shifts such a value away |
| `Writers.Writer.UInt32` | html/js/proto/protobuf.js:8569-8581 | the predicted length is the varint's |
| `Writers.Writer.Int32` | html/js/proto/protobuf.js:8589-8593 | the varint of the value modulo 2^64, ten bytes for a negative one |
| `Writers.Writer.SInt32` | html/js/proto/protobuf.js:8600-8602 | the varint of the zig-zag value |
| `Writers.Writer.Int64` | html/js/proto/protobuf.js:8623-8635 | the varint of the value modulo 2^64, length and bytes from the two halves |
| `Writers.Writer.SInt64` | html/js/proto/protobuf.js:8643-8646 | the varint of the zig-zag value, the shared zero left alone |
| `Writers.Writer.Fixed64` | html/js/proto/protobuf.js:8687-8691 | two little-endian halves, low one first |
| `Writers.Writer.BytesField` | html/js/proto/protobuf.js:8736-8746 | length and bytes, a single 0 for none |
| `Writers.Writer.StringField` | html/js/proto/protobuf.js:8753-8758 | length and UTF-8 bytes, a single 0 for none |
| `Writers.Varint32` | html/js/proto/protobuf.js:8538-8544 | the 32-bit loop writes exactly the varint and nothing else |
| `Writers.Varint64` | html/js/proto/protobuf.js:8604-8615 | the 64-bit loop writes exactly the varint; the value is left with its last group only |
| `Writers.WriteFixed` | html/js/proto/protobuf.js:8657-8662 | four little-endian bytes |
| `Writers.Execute` | html/js/proto/protobuf.js:8810-8818 | a scheduled operation writes its output at its place, and what it would write again is known |
| `WriterRuns.WriteAll` | html/js/proto/protobuf.js:8528-8821 | in every run of writes, forks, resets and ldelims on a new writer, arbitrarily nested, finish yields exactly the bytes at the top of the stack that the run leaves |
| `WriterRuns.ForkThenLDelim` | html/js/proto/protobuf.js:8765-8804 | whatever balanced calls lie between a fork and its ldelim, the result is the saved bytes, the varint of the length, and what a writer of its own would have written |
| `WriterRuns.ForkThenReset` | html/js/proto/protobuf.js:8765-8787 | whatever balanced calls lie between a fork and its reset, nothing is left of them |
| `WriterRuns.RunAbove` | html/js/proto/protobuf.js:8765-8804 | balanced calls neither see nor change the states put aside |
| `WriterRuns.Perform` | html/js/proto/protobuf.js:8528-8804 | each call changes the stack of byte strings as specified, at any depth, and keeps the writer's invariant |
| `WriterRuns.FinishesDiffer` | html/js/proto/protobuf.js:8604-8615 | a Writer that has got the number 128 finishes with two bytes, and with others the second time |
| `Utf8Codec.RoundTrip` | html/js/proto/protobuf.js:1044-1109 | reading back what was written for any sequence of UTF-16 units, unpaired surrogates included, returns it if and only if its blocks fit the chunk that is reused |
| `Utf8Codec.UsualStringsReadBack` | html/js/proto/protobuf.js:1044-1075 | every string without surrogate pairs, and every string of at most 16384 units, reads back |
| `Utf8Codec.LongStringsMayNot` | html/js/proto/protobuf.js:1064-1067 | a string for which a chunk flushed at 8193 and then at 8192 repeats a stale unit |
| `Utf8Codec.Length` | html/js/proto/protobuf.js:1019-1035 | exactly the number of bytes that will be written |
| `Utf8Codec.Write` | html/js/proto/protobuf.js:1084-1109 | writes exactly the UTF-8 form (section 3 of RFC 3629) of pairs and single units and counts it |
| `Utf8Codec.Read` | html/js/proto/protobuf.js:1044-1075 | the chunked loop with its reused buffer returns exactly the specified units on every byte string |
| `Base64.RoundTrip` | html/js/proto/protobuf.js:136-224 | decoding the encoding of any bytes restores them (section 4 of RFC 4648) |
| `Base64.Encode` | html/js/proto/protobuf.js:136-178 | the chunked encoder yields the reference encoding; a chunk is only ever flushed when full, between two groups |
| `Base64.EncodeFile` | html/js/sendfile.js:25-50 | the file encoder, with its missing numbers, yields the same reference encoding |
| `Base64.BothEncoders` | html/js/sendfile.js:25-50 | file encoder and codec encoder agree on every input, and decoding inverts both |
| `Base64.Decode` | html/js/proto/protobuf.js:190-224 | writes exactly the specified bytes, also those before an invalid character, and counts them |
| `Base64.DecodeEnd` | html/js/proto/protobuf.js:196-223 | one or two bytes at the end decode with and without their padding |
| `Base64.LengthOfEncoded` | html/js/proto/protobuf.js:109-117 | the length formula predicts the byte count of every encoding |
| `Base64.Length` | html/js/proto/protobuf.js:109-117 | three quarters of the length less the padding counted from the end |
| `Base64.TablesAreInverse` | html/js/proto/protobuf.js:126-127 | the decoding table inverts the encoding table and knows nothing else |
| `Base64.KeysAreDigits` | html/js/sendfile.js:26 | the key string agrees with the table |
| `Base64.LastDigits` | html/js/proto/protobuf.js:126-127 | the bitwise or that the table is filled with yields `+` and `/` for its last two digits |
| `Base64.RestIsEncoded` | html/js/proto/protobuf.js:142-174 | the three-state machine equals encoding by groups of three |
| `Pool.AllocAll` | html/js/proto/protobuf.js:985-1002 | over any sequence of calls and any slab size every buffer has its size, lies inside its slab at a multiple of 8, and overlaps no other |
| `Pool.Allocator.Alloc` | html/js/proto/protobuf.js:990-1001 | a small request is cut from the slab, a new one exactly when the old has no room, at the next multiple of 8 behind the last; others stand alone; nothing returned before is touched |
| `Combinators.MatchEach` | html/lib/jquery-1.12.4.js:2174-2230 | in one run, whatever earlier runs left on the elements, every query of any sequence gets the truth of the naive walk, which `Combinators.CombinatorIs` gives node by node |
| `Combinators.CombinatorIs` | html/lib/jquery-1.12.4.js:2174-2203 | of the nodes along its direction a combinator asks the elements, and all of them only going up and only if it checks other nodes too; it holds if and only if some of these matches, or for `>` and `+` the first of these |
| `Combinators.ElementsDecide` | html/lib/jquery-1.12.4.js:2174-2203 | among siblings, and above unless other nodes are checked, the answer depends on the elements of the line alone, whatever text lies between them |
| `Combinators.LineIs` | html/lib/jquery-1.12.4.js:2179-2187 | the line is the chain of parents, or of previous siblings, to its end |
| `Combinators.Run.MatchAbove` | html/lib/jquery-1.12.4.js:2190-2229 | the cached combinator returns whether some eligible node along its direction matches, and all caches of the run stay right although the array is shared and nested combinators overwrite the same slot |
| `Combinators.Run.Fill` | html/lib/jquery-1.12.4.js:2218-2224 | marking a node with the shared array before matching it harms no other cache |
| `Combinators.Run.UseOld` | html/lib/jquery-1.12.4.js:2212-2216 | an old result of this run and name is the answer for the rest of the walk and for all nodes passed |
| `Combinators.Run.MatchXml` | html/lib/jquery-1.12.4.js:2195-2202 | without caches, the plain walk |
| `Combinators.Run.MatchNearest` | html/lib/jquery-1.12.4.js:2179-2187 | only the closest eligible node is asked |
| `Combinators.Run.MatchAll` | html/lib/jquery-1.12.4.js:2232-2245 | all matchers, last one first |
| `Combinators.AboveIsSome` | html/lib/jquery-1.12.4.js:2190-2229 | the walk's meaning is that some node of the line matches |
| `Combinators.Passed` | html/lib/jquery-1.12.4.js:2203-2225 | a node without a match can be passed: the answer and the shared caches stay right |
| `Combinators.Filled` | html/lib/jquery-1.12.4.js:2212-2224 | when the walk ends, the shared result is right for every node that holds the array |
| `Callbacks.RunAll` | html/lib/jquery-1.12.4.js:3386-3477 | in any run with re-entrant handlers the first resolve or reject decides; the handlers of that side are called with its value, exactly these in this order: those attached before, first come, first served, each putting what it attaches at the end, and then each later one with all that follows from it; none of the other side, and none while pending |
| `Callbacks.ServedAre` | html/lib/jquery-1.12.4.js:3229-3240 | the handlers served are the queue followed by exactly what those served attach, in order: each is called once per attachment |
| `Callbacks.ToldIs` | html/lib/jquery-1.12.4.js:3386-3477 | call by call, the story of the object ends with the first settling call, its value and this order |
| `Callbacks.Deferred.Do` | html/lib/jquery-1.12.4.js:3267-3376 | any single call from outside or from inside a handler keeps the invariant, never changes a settled state, and attaches and calls exactly whom it should: inside a handler the new one joins the end and nobody is called, from outside a pending object waits and a settled one works off all that follows |
| `Callbacks.Deferred.Execute` | html/lib/jquery-1.12.4.js:3267-3376 | a handler's whole script attaches its handlers to the ends, in order, and calls nobody; the work it can cause is bounded, so that firing terminates |
| `Callbacks.Deferred.Fire` | html/lib/jquery-1.12.4.js:3219-3261 | firing works off the list and what is added meanwhile, exactly in the order of serving, then empties it |
| `Callbacks.Deferred.Round` | html/lib/jquery-1.12.4.js:3229-3240 | the loop over the growing list calls each callback once in order |
| `Callbacks.Deferred.FireWith` | html/lib/jquery-1.12.4.js:3356-3367 | a locked list ignores the call and leaves what is attached and called as it was; any other fires |
| `Callbacks.Deferred.Add` | html/lib/jquery-1.12.4.js:3267-3300 | a handler waits, joins a firing list without being called yet, runs at once after a firing with all that follows from it, or is dropped by a disabled list |
| `Callbacks.Deferred.CallFirst` | html/lib/jquery-1.12.4.js:3451-3460 | the three built-in callbacks set the state, disable the other list and lock progress before any handler runs |
| `Callbacks.CallbackList.Disable` | html/lib/jquery-1.12.4.js:3332-3336 | list, queue and memory are gone and the list is locked |
| `Callbacks.CallbackList.Lock` | html/lib/jquery-1.12.4.js:3344-3350 | locks, and disables when there is no memory |
| `Callbacks.Deferred.Upcoming` | html/lib/jquery-1.12.4.js:3229-3233 | which callback is next at every point of a firing |
| `StatsWalk.FilterStats` | html/lib/adapter-latest.js:2734-2754 | returns exactly the entries that some RTP stream of the track refers to, directly or through any chain of `...Id` and `...Ids` references, for every report, cyclic ones included |
| `StatsWalk.KeptBy` | html/lib/adapter-latest.js:2735-2750 | the streams are the outbound-rtp or inbound-rtp entries with the id of a track entry whose trackIdentifier is the track's |
| `StatsWalk.EndsWithIs` | html/lib/adapter-latest.js:2723-2725 | a property refers to entries when its name is anything followed by the suffix |
| `StatsWalk.FindIs` | html/lib/adapter-latest.js:2742 | a property that an entry has once is found under its name |
| `StatsWalk.Walk` | html/lib/adapter-latest.js:2717-2731 | the recursive walk terminates, adds only what can be reached, and leaves no reference of what it adds unfollowed |
| `StatsWalk.WalkProperty` | html/lib/adapter-latest.js:2722-2730 | all ids that a property names are followed |
| `StatsWalk.WalkStreams` | html/lib/adapter-latest.js:2746-2751 | all streams of a track are walked |
| `StatsWalk.ClosedHolds` | html/lib/adapter-latest.js:2717-2731 | a set that references do not leave holds everything reachable from its members |
| `StatsWalk.ReachesFurther` | html/lib/adapter-latest.js:2717-2731 | following a reference and then a path is a path |
| `StatsWalk.KeptExactly` | html/lib/adapter-latest.js:2734-2754 | closed and reached from the streams means exactly the reachable entries |
| `Candidates.RoundTrip` | html/lib/adapter-latest.js:4668-4741 | a candidate object of space-free tokens and integers survives writing and parsing, with and without `a=`, if and only if it is canonical: aliases agree, lower-case protocol, related address only with a nonzero port and not for host, TCP type only for TCP, no other properties (section 5.1 of RFC 8839) |
| `Candidates.ReadWritten` | html/lib/adapter-latest.js:4668-4741 | what comes back for any such object, canonical or not |
| `Candidates.WriteCandidate` | html/lib/adapter-latest.js:4713-4741 | the pushed parts joined by spaces, or a type error without a protocol |
| `Candidates.ParseCandidate` | html/lib/adapter-latest.js:4668-4710 | the loop by twos over names and values yields the object that `Candidates.ParsedIs` describes, on every line of at least three parts, and else a type error |
| `Candidates.ParsedIs` | html/lib/adapter-latest.js:4689-4708 | on every line, each property that some name at an even place behind the eighth part sets has the value given last: raddr sets relatedAddress, rport relatedPort as a number, tcptype tcpType, ufrag both ufrag and usernameFragment, and any other name the property of that name; all other properties are the basic ones |
| `Candidates.OtherNames` | html/lib/adapter-latest.js:4704-4706 | a name that is none of the known ones is a property with the value given last for it, undefined when the line ends with the name |
| `Candidates.FirstIs` | html/lib/adapter-latest.js:4677-4687 | the basic properties of every line; a missing part is undefined or not a number |
| `Candidates.PartsOf` | html/lib/adapter-latest.js:4713-4741 | the parts that are written: address before ip, related address only with a port that is not 0 and not for host, TCP type for TCP only, usernameFragment before ufrag, the protocol in capitals |
| `Candidates.ShowIs` | html/lib/adapter-latest.js:4715-4740 | how a joined value is written: nothing for a missing one, NaN for a failed number |
| `Candidates.CaseIs` | html/lib/adapter-latest.js:4717-4732 | letter by letter, what upper and lower case change |
| `Candidates.ParseNumber` | html/lib/adapter-latest.js:4679-4684 | parseInt reads the digits behind any white space and a sign, up to the first character that is no digit |
| `Candidates.BlankIs` | html/lib/adapter-latest.js:4679-4684 | the characters that parseInt skips in front |
| `Candidates.SplitJoin` | html/lib/adapter-latest.js:4672-4674 | splitting at spaces undoes joining space-free parts |
| `Candidates.ParseDecimal` | html/lib/adapter-latest.js:4679-4684 | parseInt inverts plain decimal notation on every integer |
| `PeerConnection.RTCPeerConnection.SetRemoteDescription` | html/lib/adapter-latest.js:3637-3950 | a description goes through if and only if the signaling table allows it and each of its sections passes, seen from the sections and from what the transceivers have before the call; what an offer or answer makes of the transceivers, up to the section that throws; after a completed offer every section's transceiver carries its mid, and every call but an offer that throws keeps the transceivers in step with the open offer |
| `Transceivers.OfferDirects` | html/lib/adapter-latest.js:3778-3868 | after a completed offer a transceiver has a receiver if and only if its section is live and sends, and keeps its sender unless it was refused before or is now |
| `Descriptions.DirectionSaid` | html/lib/adapter-latest.js:5254-5272 | the first direction line of a section decides, whatever the session says: the other side sends if and only if it is sendrecv or sendonly |
| `Descriptions.DirectionUnsaid` | html/lib/adapter-latest.js:5254-5272 | without one the session part decides, and without any line at all it is sendrecv |
| `Descriptions.RefusedIs` | html/lib/adapter-latest.js:3674-3692 | a section is refused if and only if its port is 0 without a=bundle-only or it is a data channel over SCTP |
| `Descriptions.MsidThrows` | html/lib/adapter-latest.js:5149-5168 | reading the msid throws if and only if there is not exactly one msid line and the first msid of a source has no value |
| `Descriptions.ComponentOne` | html/lib/adapter-latest.js:3739-3741 | a written candidate is used exactly when it is for component 1 |
| `Transceivers.ReadableIs` | html/lib/adapter-latest.js:4932-4946 | a live section can be read if and only if both ICE lines are in it or in the session part and each candidate line has its first three parts |
| `PeerConnection.SignalingTable` | html/lib/adapter-latest.js:2953-2964 | which descriptions each signaling state allows |
| `PeerConnection.RTCPeerConnection.ApplyOffered` | html/lib/adapter-latest.js:3674-3868 | one offered section in place: refused, recycled, reused or new, or the partial update that a missing ICE line, an unreadable candidate, a missing transport or an unknown kind leaves |
| `PeerConnection.RTCPeerConnection.ApplyAnswered` | html/lib/adapter-latest.js:3674-3930 | one answered section in place, and what it lacks when it throws |
| `Transceivers.OfferPasses` | html/lib/adapter-latest.js:3674-3868 | on any transceivers an offer goes through if and only if each section has a readable msid and is refused or has its ICE lines, readable candidates, a kind with capabilities and, with candidates, a transport: its own, or with BUNDLE the first one's, which a refused first section does not have; otherwise it throws at the first section that does not; and the live sections without such a transport cannot be answered |
| `Transceivers.AnswerPassesAll` | html/lib/adapter-latest.js:3674-3930 | on any transceivers an answer goes through if and only if each section is refused or has its ICE lines and meets a live transceiver that was offered and, alone or as the first of a BUNDLE, has its transports |
| `Transceivers.OfferedAll` | html/lib/adapter-latest.js:3674-3868 | after a remote offer, completed or not: sections before the failing one have their transceivers, with mid and kind, those behind it are untouched, and the failing one leaves exactly this mid |
| `Transceivers.CompletedOffer` | html/lib/adapter-latest.js:3674-3868 | after a completed offer transceiver i stands for section i: its mid, refused or with all capabilities; a transceiver that was there and live keeps its kind |
| `Transceivers.FailedOffer` | html/lib/adapter-latest.js:3674-3778 | an offer with a section that does not pass keeps the transceivers aligned with the offer that is open if and only if the sections up to the first such one leave the open offer's mids |
| `Negotiation.Reoffer` | html/lib/adapter-latest.js:3674-3943 | on the object, by conditions that can be seen before the call: the further offer takes the place of the open one if and only if each section passes, and afterwards the transceivers are aligned with the open offer if and only if each passes or the mids are kept up to the first that does not |
| `Failures.BrokenReoffer` | html/lib/adapter-latest.js:3722-3766 | the input on which the alignment is lost: a re-offer whose first section brings another mid and whose second has no ICE lines |
| `Negotiation.PerformAll` | html/lib/adapter-latest.js:3161-4397 | after any calls, local and remote descriptions, tracks, offers, answers and close, the transceivers are in step with the open remote offer unless a remote offer threw, and on a closed connection nothing gets done any more; the signaling state is that of the last description that went through, and a description goes unrefused if and only if the state that the calls before led to allows it |
| `PeerConnection.RTCPeerConnection.CreateAnswer` | html/lib/adapter-latest.js:4310-4397 | answers exactly in have-remote-offer, and gets through if and only if each offered section's transceiver is refused or has capabilities, encodings, gatherer and transport; then writes one section per transceiver, whose direction `Offers.AnswerSays` gives |
| `Offers.AnswerSays` | html/lib/adapter-latest.js:4339-4393 | in an answer the first direction line of a live section is sendrecv or sendonly if and only if its transceiver has a sender, sendrecv or recvonly if and only if it has a receiver; a refused one is inactive |
| `Offers.RefusedAnswer` | html/lib/adapter-latest.js:4339-4353 | the media line of a refused section: port 0, and for a data channel the offered protocol |
| `Offers.AnswerIs` | html/lib/adapter-latest.js:4339-4393 | an answer has a media section for each offered one if and only if no refused one is of an unknown kind; then each has its transceiver's kind and mid, and port 0 when refused (section 6 of RFC 3264) |
| `Negotiation.OfferThenAnswer` | html/lib/adapter-latest.js:3637-4397 | for every connection and every offer: both calls get through if and only if the state allows it, each section passes and each live one has a transport; then as many sections if and only if the refused ones are of a known kind; the offered mids; a section of the offered kind if and only if it was refused, or there was no live transceiver before, or one of this kind; port 0 if and only if it was refused or has no common codec; and a direction that receives if and only if the offered section is live and sends, and sends if and only if its transceiver has kept a sender (section 6.1 of RFC 3264) |
| `Failures.AnswerOfAnotherKind` | html/lib/adapter-latest.js:3204-3210 | after adding a video track, an offered audio section is answered with a video section |
| `Exchange.NewOffer` | html/lib/adapter-latest.js:3674-3868 | which first offers a new connection takes, section by section, and that exactly the live sections behind a refused first one of a BUNDLE are left without transports |
| `Exchange.AnswerFirstOffer` | html/lib/adapter-latest.js:3637-4397 | a new connection takes a first offer if and only if each section has its ICE lines, readable candidates, a known kind and, with candidates, a transport; it answers if and only if no section is stranded, and then each with its own kind and mid |
| `Failures.StrandedSection` | html/lib/adapter-latest.js:2779-2786 | a BUNDLE offer of a data channel and an audio section is taken but cannot be answered |
| `Exchange.Handshake` | html/lib/adapter-latest.js:3543-4397 | a stable connection with no refused transceiver offers what is asked for, of kinds that both sides know and with codecs of its own, and a new connection answers: all six calls get done, both end stable with the same number of transceivers, of the same mids and kinds, and the offering side has refused exactly the sections without a common codec; the answering side has a receiver for exactly those transceivers that had a sender when the exchange began, and the senders stay |
| `Exchange.WrittenReads` | html/lib/adapter-latest.js:2779-2833 | every section that the shim writes can be read by the shim: one media line, ICE lines, a readable msid, refused exactly when there are no codecs |
| `PeerConnection.RTCPeerConnection.CreateOffer` | html/lib/adapter-latest.js:4131-4308 | prepares the transceivers that are asked for and describes all of them in order, or leaves exactly these on an error; an open remote offer stays in step; the direction of each section is `Offers.OfferSays` |
| `Offers.OfferSays` | html/lib/adapter-latest.js:2793-2801 | in an offer the first direction line of each section is sendrecv or sendonly if and only if its transceiver has a sender, sendrecv or recvonly if and only if it has a receiver, and else inactive |
| `Offers.WrittenIs` | html/lib/adapter-latest.js:2803-2823 | the media line of a written section, port 0 exactly without codecs, and exactly one msid line if and only if there is a sender |
| `Offers.OfferingCounts` | html/lib/adapter-latest.js:4139-4199 | how many transceivers of each kind there are afterwards: true asks for one, false for none, a number for that many, and none is taken away |
| `Offers.HeaderIs` | html/lib/adapter-latest.js:5182-5196 | the session part carries the session version it was written for, and a BUNDLE group exactly when asked to |
| `Offers.OfferMade` | html/lib/adapter-latest.js:4197-4290 | an offer gets through if and only if every transceiver has its DTLS transport and is of a kind with capabilities, and so are the kinds asked for beyond them |
| `Offers.OfferingAre` | html/lib/adapter-latest.js:4139-4199 | afterwards there are as many transceivers of each kind as before or as asked for, whichever is more; kinds, mids, transports and tracks are kept |
| `Offers.OfferIs` | html/lib/adapter-latest.js:4285-4290 | the sections of an offer are those of the transceivers, and its session part comes back |
| `PeerConnection.RTCPeerConnection.SetLocalDescription` | html/lib/adapter-latest.js:3543-3635 | the signaling table; a local offer gets through if and only if it has no more sections than there are transceivers and each of these has a gatherer, a local answer if and only if what is live on both sides has ICE lines, capabilities and transports |
| `Failures.NoGatherer` | html/lib/adapter-latest.js:3572-3574 | a local offer set without createOffer meets a transceiver without a gatherer and throws |
| `PeerConnection.RTCPeerConnection.AddTrack` | html/lib/adapter-latest.js:3194-3230 | refuses closed connections and tracks that are already there; otherwise the last free transceiver of the kind, or a new one, carries the track, all others are untouched |
| `PeerConnection.RTCPeerConnection.RemoveTrack` | html/lib/adapter-latest.js:3255-3289 | refuses closed connections and unknown senders; otherwise exactly the sender's transceiver loses its track, and the stream goes exactly when no transceiver has it |
| `Tracks.OrderlyMeans` | html/lib/adapter-latest.js:3194-3289 | what every call keeps: no two transceivers share a track or a sender, one with a track has a sender and a local stream, one without has neither |
| `Tracks.AddedOrderly` | html/lib/adapter-latest.js:3200-3227 | a track and its sender are on one transceiver only, and its stream is a local one |
| `Tracks.RemovedOrderly` | html/lib/adapter-latest.js:3266-3286 | removing a sender keeps that |
| `Tracks.WithoutAt` | html/lib/adapter-latest.js:3284-3287 | of the local streams exactly the first occurrence of the stream goes |
| `Tracks.AddThenRemove` | html/lib/adapter-latest.js:3194-3289 | removing the sender that adding a track returned leaves the transceivers as they were, but for the one that may have been made |
| `PeerConnection.RTCPeerConnection.CreateTransceiver` | html/lib/adapter-latest.js:3161-3192 | a new transceiver of the kind, with transports of its own or with BUNDLE those of the first |
| `PeerConnection.RTCPeerConnection.Close` | html/lib/adapter-latest.js:4001-4024 | closed; that no later call undoes it is part of `Negotiation.PerformAll` |
| `Descriptions.SectionsBack` | html/lib/adapter-latest.js:4638-4657 | splitting a description written from a session part and sections returns the sections |
| `Descriptions.SectionsAre` | html/lib/adapter-latest.js:4638-4657 | every section that splitting yields starts with its only media line |
| `Descriptions.CutConcat` | html/lib/adapter-latest.js:4638-4643 | cutting concatenated sections returns them |
| `Descriptions.SectionCount` | html/lib/adapter-latest.js:4638-4657 | a description has as many sections as media lines behind its session part |
| `StateGroup.PerformAll` | state-machine/src/main/java/org/cn/monkey/state/AbstractStateGroup.java:58-135 | over every run: exactly the commands offered while fewer than 1000 wait are accepted; these are the handled ones followed by the queue, at most 1000 wait, nothing is handled without a current state, the current state was added, and only setting it leads out of the error state |
| `StateGroup.Group.Serve` | state-machine/src/main/java/org/cn/monkey/state/AbstractStateGroup.java:89-135 | an update takes exactly one command and calls exactly these hooks in this order, whatever throws, moves to the named state only if the group has it, and marks the state as initialised when init does; what finishOnError returns is not used |
| `StateGroup.CallsAre` | state-machine/src/main/java/org/cn/monkey/state/AbstractStateGroup.java:97-134 | init unless it has been called, then the command, the update and finish, in this order, whatever throws |
| `StateGroup.CallsCatch` | state-machine/src/main/java/org/cn/monkey/state/AbstractStateGroup.java:97-134 | an error hook is called if and only if its hook has thrown |
| `StateGroup.CallsBehind` | state-machine/src/main/java/org/cn/monkey/state/AbstractStateGroup.java:97-134 | and directly behind it |
| `StateGroup.Group.RunHooks` | state-machine/src/main/java/org/cn/monkey/state/AbstractStateGroup.java:101-134 | each hook has its own catch |
| `StateGroup.Group.AddCharacterCmd` | state-machine/src/main/java/org/cn/monkey/state/AbstractStateGroup.java:84-86 | taken if and only if fewer than 1000 wait |
| `StateGroup.Group.SetCurrentState` | state-machine/src/main/java/org/cn/monkey/state/AbstractStateGroup.java:65-67 | an unknown code throws after the current state has been cleared |
| `StateGroup.Group.AddState` | state-machine/src/main/java/org/cn/monkey/state/AbstractStateGroup.java:59-62 | the state is known under its code, the current one unchanged |
| `StateGroup.OneHandled` | state-machine/src/main/java/org/cn/monkey/state/AbstractStateGroup.java:113-117 | the hooks of an update hand over exactly one command |
| `StateGroup.Perform` | state-machine/src/main/java/org/cn/monkey/state/DefaultErrorState.java:17-20 | an update in the error state stays there |

## Left out

Codec:

- The `.proto` parser, reflection, JSON converters, the verifier, RPC, fetching, and the Node
  BufferReader and BufferWriter; the generated source text is interpreted instead of parsed.
- The Long library: 64-bit values are plain numbers. They are exact integers here; the rounding
  of a number beyond 2^53 to a double is not modelled.
- Floating point conversion: floats and doubles are their four or eight bytes.
- Property order of JavaScript objects: a map keeps insertion order also for keys that look
  like integers. The map key `__proto__`, which sets the prototype, is treated like any other.
- Encoder calls on values that do not belong to their field type; the source leaves these to
  its verifier. A string given for a byte field, which the source takes as base64, is such one.
- Stores beyond a destination buffer, which typed arrays ignore: callers make room.
- Recursion depth and memory limits, and encodings of 2^32 bytes or more, whose lengths are cut.
- Writers.Writer.BytesField: asks for fewer than 2^32 bytes, since the length is cut to 32 bits while all bytes are written.
- Pool.Allocator.constructor: asks for a slab below 2^31 bytes, where `offset | 7` stays a positive number.

Selector engine and callbacks:

- Tokenizing, set matchers, result sorting and the caches of position filters; simple matchers
  are the sets of nodes they accept in the context.
- Nodes that change during a run, and the outer loop that draws a new run number.
- The options `unique` and `stopOnFalse`, `remove`, `empty`, `has`, `fired`, progress handlers, `notify`,
  `then`, `when`, and callbacks that throw; contexts and argument lists are one value.
- A handler that attaches itself without end: scripts are finite, as they must be for a run
  that ends.

Shim:

- The text of descriptions below the level of lines. Of transports, gatherers, receivers,
  capabilities and encodings only whether they are there, and of a side's codecs only which
  sections have any; with that go the description of codecs and header extensions and the
  retransmission parameters.
- Errors that the browser's own objects throw, for instance a transport that is started twice.
  The type errors of the shim's own code on the way through the sections are kept.
- What setRemoteDescription does once the new state is in place: streams of remote tracks, timers
  and events, and the type error at line 3967 for a new remote track without a stream.
- addIceCandidate, which also edits the stored remote description, candidates that a gatherer
  found before an offer is written, and getStats of the connection itself.
- Candidates.ParseDecimal: numbers are written in plain decimals; JavaScript writes integers from 10^21 on with an exponent, of which parseInt reads the first digit only.
- Candidates.RoundTrip: holds of integers as far as they are written in plain decimals, for the same reason.
- Locale and Unicode case rules: candidate protocols are folded as ASCII.
- Statistics entries whose `...Ids` property is not a list, on which the source throws.

State group:

- Threads: the queue is used by one caller at a time. Hooks that throw from an error hook, or
  that call the group again.
- Characters entering and leaving, disposal, and the factory that sweeps groups.

The server, the session and handler layers, the Spring starter and the other scripts of the
page are plumbing over libraries and devices, and are not part of this model.
