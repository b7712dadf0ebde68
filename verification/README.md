# Verification of the DuckDB UI data path

A Dafny model of the code that carries query results from the DuckDB UI extension (C++) to its web client (TypeScript),
with proofs of what that code promises. `dafny verify dfyconfig.toml` checks all of it.

What is modelled, and where:

- **The binary result protocol.** `WireTypes` holds types, vectors, chunks and results; `WireReaders` says what the
  client's readers compute at any offset of any buffer; `BinaryDeserializer` holds the readers themselves, as classes and
  methods that move the offset of a shared stream; `WireWriters` is the encoder, in which an arbitrary choice decides for
  each default-valued optional field whether it is written; `WireRoundTrip` proves that every result is read back,
  `WireBounds` that no bytes make the readers produce more than they read, and `WireKinds` gives the format in numbers:
  what is read at each type id, the field ids, and a whole result as bytes.
- **Columns to values.** `Columns` reads a row of a column vector as a value of the client; `ColumnValues` proves, type id
  by type id, which value the stored bytes give; `ColumnLayout` lays rows with NULLs at any depth out as vectors and
  proves that reading them back gives the values they stand for.
- **From the fetch loop to the reader.** `FetchLoop` is the server's loop with its two row limits; `DataReader` is the
  client's reader, which finds a row through runs of equal batch sizes; `EndToEnd` composes fetch, layout, encoding,
  decoding and reader into one method.
- **Protocols.** `RequestQueue`, `EventDispatcher` and `Watcher` are state machines. The operations of each class are
  proved to be steps of its machine, and the theorems are about all runs, under any interleaving of steps.
- **Type strings.** `TypeStrings` has the printers and the parser, `TypeParser` their loops, `FieldSplitting` the scan
  that splits fields, `PrintedTypes` and `TypeStringRoundTrip` the proof of exactly which types are read back.
  `RecordKeys` says which fields a record keeps and in which order, `WordFields` reads back fields with names that are not
  quoted, and `ParserTexts` is about the strings that no printer writes.
- **Codecs.** `Calendar` and `DateStrings` (dates and timestamps), `DateTexts` (which digits of a text show which number),
  `Uuid`, `BitString`, `BigNum` and `Base64`.

`Words`, `ByteOrder`, `Decimals` and `Wrappers` are shared arithmetic and datatypes.

The form follows the source. Objects that update their fields are classes; loops are loops, with invariants, and each
method is proved equal to a specification function; code made of expressions is functions, about which lemmas are proved.
JavaScript's 32-bit operators are written out (`Words.Or32`, `Words.Shl32`, `Words.ToInt32`), and so is its division of
big integers, which rounds towards zero (`DateStrings.TruncDiv`).

Some results say exactly when the code keeps its promise, because it does not always:

- `readVarInt` is exact below 2^31 and wraps to a negative number from there on (`WireRoundTrip.VarIntExact`).
- A printed type is parsed back if and only if its struct and union names are distinct and free of line terminators and of
  the text "enum(", and no argument of a map prints as a type with time zone (`TypeStringRoundTrip.TypeStringRoundTrip`).
  Fields without quotes are read back if and only if moreover the names that are array indices come first, in numeric
  order, because an object reorders them (`WordFields.WordRoundTrip`).
  The parser keeps the quotes around names. A struct with an enum field is never read back
  (`TypeStringRoundTrip.NestedEnumLost`).
- What the client encodes with `btoa` reaches the server unchanged if and only if no group of six bits is 63: the
  server's alphabet ends in `+_`, while section 4 of RFC 4648 has `+/` (`Base64.ClientToServer`, `Base64.LostText`).
- A poll of the watcher reports a change when the versions differ, and also when two attached databases share an id and
  differ in version (`Watcher.WasCatalogUpdated`).
- A waiter of the event dispatcher writes an event if and only if exactly one was sent while it waited; after two it
  writes the empty message (`EventDispatcher.DeliveryExact`).
- Timestamps in nanoseconds lose what division by 1000, rounding towards zero, drops (`DateStrings.OtherUnits`).

Where a comment in the source and its code disagree, the code is followed. `dateTimeStringConversion.ts:43` speaks of the
non-existence of year zero, yet astronomical year 0 is printed as `0000` and the year before it as `0002 (BC)`
(`DateTexts.AroundYearZero`); `DuckDBDataReader.ts:30-31` expects at most two
runs of batch sizes, while the proofs allow any number.

## Model

| member | source | states |
|---|---|---|
| WireReaders.VarIntFrom | ts/pkgs/duckdb-ui-client/src/serialization/classes/BinaryDeserializer.ts:65-75 | on any bytes, reading a variable-length integer fails or ends after the offset it started at and inside the buffer |
| WireReaders.ViewAt | ts/pkgs/duckdb-ui-client/src/serialization/classes/BinaryStreamReader.ts:41-47 | a returned view is the bytes from the offset on, and lies inside the buffer; a negative length fails |
| WireReaders.TypeAt | ts/pkgs/duckdb-ui-client/src/serialization/functions/typeReaders.ts:122-131 | decoding a type is total: on any bytes it fails, or ends at a larger offset inside the buffer |
| WireReaders.FieldsFrom | ts/pkgs/duckdb-ui-client/src/serialization/functions/typeReaders.ts:14-25 | a list loop reads at least one byte for every item, whatever count was declared |
| WireReaders.VectorAt | ts/pkgs/duckdb-ui-client/src/serialization/functions/vectorReaders.ts:28-172 | decoding a vector, with its children, is total, and ends at a larger offset inside the buffer (what is read at each id is in `WireKinds`) |
| WireReaders.QueryResultAt | ts/pkgs/duckdb-ui-client/src/serialization/functions/resultReaders.ts:59-85 | decoding a query result is total, and ends at a larger offset inside the buffer |
| WireBounds.QueryResultBounded | ts/pkgs/duckdb-ui-client/src/serialization/functions/resultReaders.ts:59-85 | nodes and view bytes of a result read from arbitrary bytes are together at most the bytes that were read |
| WireBounds.TypeBounded | ts/pkgs/duckdb-ui-client/src/serialization/functions/typeReaders.ts:27-131 | a decoded type of any nesting has at most as many nodes and name bytes as bytes were read, so its recursion is bounded |
| WireBounds.VectorBounded | ts/pkgs/duckdb-ui-client/src/serialization/functions/vectorReaders.ts:28-181 | the same of a vector with all of its children, list entries and views |
| BinaryDeserializer.BinaryStreamReader.PeekUint16Le | ts/pkgs/duckdb-ui-client/src/serialization/classes/BinaryStreamReader.ts:23-25 | peeking reads two bytes in little-endian order without moving the offset |
| BinaryDeserializer.BinaryStreamReader.ReadData | ts/pkgs/duckdb-ui-client/src/serialization/classes/BinaryStreamReader.ts:31-47 | the view is the specified one, and the offset moves past it |
| BinaryDeserializer.BinaryDeserializer.ReadVarInt | ts/pkgs/duckdb-ui-client/src/serialization/classes/BinaryDeserializer.ts:65-75 | the loop over result and shift computes the specified value, with 32-bit operators, and moves the offset to the specified place |
| BinaryDeserializer.ReadTypeInfo | ts/pkgs/duckdb-ui-client/src/serialization/functions/typeReaders.ts:27-114 | the value, the error and the new offset of the stream are those of the specification |
| BinaryDeserializer.ReadVector | ts/pkgs/duckdb-ui-client/src/serialization/functions/vectorReaders.ts:28-172 | the value, the error and the new offset of the stream are those of the specification, which `WireKinds` gives id by id |
| BinaryDeserializer.ReadVectorList | ts/pkgs/duckdb-ui-client/src/serialization/functions/vectorReaders.ts:174-181 | the loop over the list reads each vector with the type at its index, as specified |
| BinaryDeserializer.ReadQueryResult | ts/pkgs/duckdb-ui-client/src/serialization/functions/resultReaders.ts:79-85 | the value, the error and the new offset of the stream are those of the specification |
| BinaryDeserializer.ReadTokenizeResult | ts/pkgs/duckdb-ui-client/src/serialization/functions/resultReaders.ts:22-29 | the value, the error and the new offset of the stream are those of the specification |
| WireRoundTrip.VarIntWraps | ts/pkgs/duckdb-ui-client/src/serialization/classes/BinaryDeserializer.ts:65-75 | the encoding of any 32-bit number is read as that number taken as a signed 32-bit integer |
| WireRoundTrip.VarIntExact | ts/pkgs/duckdb-ui-client/src/serialization/classes/BinaryDeserializer.ts:65-75 | the encoding of a 32-bit number is read back exactly if and only if the number is below 2^31 |
| WireRoundTrip.AtType | ts/pkgs/duckdb-ui-client/src/serialization/functions/typeReaders.ts:122-131 | the encoding of any type, nested to any depth and with any choice of optional fields, is read back where it stands |
| WireRoundTrip.AtVector | ts/pkgs/duckdb-ui-client/src/serialization/functions/vectorReaders.ts:28-172 | the encoding of any vector that fits its type, as `WireKinds.FittingVectors` spells out, is read back where it stands |
| WireRoundTrip.TokenizeResultRoundTrip | src/utils/serialization.cpp:11-14 | every tokenize result is read back from its encoding, whatever bytes follow |
| WireRoundTrip.QueryResultRoundTrip | src/utils/serialization.cpp:16-49 | every well-typed query result is read back from its encoding, whichever default-valued fields were written and whatever follows; the reader stops just before the outer end marker |
| WireKinds.FlatContent | ts/pkgs/duckdb-ui-client/src/serialization/functions/vectorReaders.ts:36-93 | with ids in numbers: a view of bytes is read at 10–23, 27–32, 34, 49, 50, 54 and 104, strings at 24 and 25, byte strings at 26, 36 and 39 |
| WireKinds.NestedContent | ts/pkgs/duckdb-ui-client/src/serialization/functions/vectorReaders.ts:94-163 | child vectors at 100 and 107, size, entries and child at 101 and 102, size and child at 108, and an error when the type information is missing or of another kind |
| WireKinds.UnrecognizedContent | ts/pkgs/duckdb-ui-client/src/serialization/functions/vectorReaders.ts:164-165 | at every other id the error is that the id is not recognized |
| WireKinds.TypeFields | ts/pkgs/duckdb-ui-client/src/serialization/functions/typeReaders.ts:122-131 | the bytes of a type, field ids in numbers: those that the readers of the round trip accept |
| WireKinds.DetailFields | ts/pkgs/duckdb-ui-client/src/serialization/functions/typeReaders.ts:40-102 | the bytes of each kind of type information, field ids and kinds in numbers |
| WireKinds.VectorFields | ts/pkgs/duckdb-ui-client/src/serialization/functions/vectorReaders.ts:32-33 | the bytes of a vector around its content |
| WireKinds.ContentFields | ts/pkgs/duckdb-ui-client/src/serialization/functions/vectorReaders.ts:61-163 | the bytes of each kind of content |
| WireKinds.FittingTypes | ts/pkgs/duckdb-ui-client/src/serialization/functions/typeReaders.ts:27-131 | the types of the round trip: all, with lengths and counts below 2^31 |
| WireKinds.FittingVectors | ts/pkgs/duckdb-ui-client/src/serialization/functions/vectorReaders.ts:36-93 | the flat vectors of the round trip, by ids and bounds in numbers |
| WireKinds.FittingChildren | ts/pkgs/duckdb-ui-client/src/serialization/functions/vectorReaders.ts:94-163 | the nested vectors of the round trip likewise |
| WireKinds.FittingResults | ts/pkgs/duckdb-ui-client/src/serialization/functions/resultReaders.ts:59-85 | the results of the round trip likewise |
| WireKinds.SmallResult | src/utils/serialization.cpp:16-49 | a result with one column, one chunk and two rows is read from these 43 bytes |
| WireKinds.SixthByte | ts/pkgs/duckdb-ui-client/src/serialization/classes/BinaryDeserializer.ts:65-75 | a sixth byte is shifted by 35 modulo 32 and ORed in, so its bits meet those of the first byte |
| Columns.Wide | ts/pkgs/duckdb-ui-client/src/conversion/functions/dataViewReaders.ts:44-54 | two 64-bit reads combine to the 128-bit number, signed and unsigned |
| Columns.TimeTzUnpacks | ts/pkgs/duckdb-ui-client/src/conversion/functions/duckDBValueFromVector.ts:168-172 | the packed time with time zone gives back the microseconds and the offset that were packed |
| ColumnValues.ValidRows | ts/pkgs/duckdb-ui-client/src/conversion/functions/isRowValid.ts:3-7 | a row is NULL if and only if its bit of the validity bytes, least significant first, is clear; without validity no row is |
| ColumnValues.OneByteTypes | ts/pkgs/duckdb-ui-client/src/conversion/functions/duckDBValueFromVector.ts:68-156 | BOOLEAN is whether the byte is not 0, UTINYINT the byte, TINYINT the byte as a signed number |
| ColumnValues.TwoByteTypes | ts/pkgs/duckdb-ui-client/src/conversion/functions/duckDBValueFromVector.ts:73-158 | SMALLINT and USMALLINT from two little-endian bytes |
| ColumnValues.FourByteTypes | ts/pkgs/duckdb-ui-client/src/conversion/functions/duckDBValueFromVector.ts:75-160 | INTEGER, UINTEGER, DATE and FLOAT from four bytes |
| ColumnValues.EightByteTypes | ts/pkgs/duckdb-ui-client/src/conversion/functions/duckDBValueFromVector.ts:77-162 | BIGINT, UBIGINT and DOUBLE from eight bytes |
| ColumnValues.CountTypes | ts/pkgs/duckdb-ui-client/src/conversion/functions/duckDBValueFromVector.ts:84-167 | TIME, the four timestamps and the one with time zone: a signed count from eight bytes, tagged by the id |
| ColumnValues.TimeTzType | ts/pkgs/duckdb-ui-client/src/conversion/functions/duckDBValueFromVector.ts:168-171 | TIME WITH TIME ZONE: microseconds above 24 bits, and 57599 minus those bits as the offset |
| ColumnValues.IntervalType | ts/pkgs/duckdb-ui-client/src/conversion/functions/duckDBValueFromVector.ts:147-153 | months, days and microseconds at their offsets in 16 bytes |
| ColumnValues.SixteenByteTypes | ts/pkgs/duckdb-ui-client/src/conversion/functions/duckDBValueFromVector.ts:187-190 | UHUGEINT and HUGEINT from two 64-bit halves, the upper one signed for HUGEINT |
| ColumnValues.UuidType | ts/pkgs/duckdb-ui-client/src/conversion/functions/duckDBValueFromVector.ts:192-195 | a UUID is the sixteen stored bytes in reverse order, with the top bit flipped |
| ColumnValues.DecimalType | ts/pkgs/duckdb-ui-client/src/conversion/functions/duckDBValueFromVector.ts:105-129 | DECIMAL: 2, 4, 8 or 16 bytes up to widths 4, 9, 18 and 38, with the scale of the type; an error above |
| ColumnValues.EnumType | ts/pkgs/duckdb-ui-client/src/conversion/functions/duckDBValueFromVector.ts:232-242 | ENUM: the value at the index stored in 1, 2 or 4 bytes, for fewer than 256, 65536 and 2^32 values |
| ColumnValues.ListedTypes | ts/pkgs/duckdb-ui-client/src/conversion/functions/duckDBValueFromVector.ts:136-185 | text, BLOB, BIT and BIGNUM from the item of the row |
| ColumnValues.StructType | ts/pkgs/duckdb-ui-client/src/conversion/functions/duckDBValueFromVector.ts:197-206 | a struct is its names with the values of the row in its children |
| ColumnValues.ListType | ts/pkgs/duckdb-ui-client/src/conversion/functions/duckDBValueFromVector.ts:208-217 | a list is the items from the offset of its entry on |
| ColumnValues.MapType | ts/pkgs/duckdb-ui-client/src/conversion/functions/duckDBValueFromVector.ts:219-230 | a map is pairs of the first and second column of its child, from the offset of its entry on |
| ColumnValues.ArrayType | ts/pkgs/duckdb-ui-client/src/conversion/functions/duckDBValueFromVector.ts:258-266 | an array is the items from row times size on |
| ColumnValues.UnionType | ts/pkgs/duckdb-ui-client/src/conversion/functions/duckDBValueFromVector.ts:244-256 | a union is the value of the child one past its tag |
| ColumnValues.UnionTags | ts/pkgs/duckdb-ui-client/src/conversion/functions/duckDBValueFromVector.ts:244-256 | a tag that is NULL or a boolean counts as 0 or 1 |
| ColumnValues.OutOfRange | ts/pkgs/duckdb-ui-client/src/conversion/functions/dataViewReaders.ts:3-54 | a read outside the bytes of the column is an error, for every id and width |
| ColumnValues.UnknownTypes | ts/pkgs/duckdb-ui-client/src/conversion/functions/duckDBValueFromVector.ts:268-269 | any other id, and a nested type without information, is an error |
| ColumnLayout.RowValidity | ts/pkgs/duckdb-ui-client/src/conversion/functions/isRowValid.ts:3-7 | the validity words of a column say of each row whether it is NULL, for columns with and without a bitmap |
| ColumnLayout.EntryOf | ts/pkgs/duckdb-ui-client/src/conversion/functions/duckDBValueFromVector.ts:208-218 | the offset and length of a list entry name exactly the items of its row in the child |
| ColumnLayout.ArrayRowAt | ts/pkgs/duckdb-ui-client/src/conversion/functions/duckDBValueFromVector.ts:258-270 | the items of row i of an array column are those from row i times the size on in the child |
| ColumnLayout.UnionColumn | ts/pkgs/duckdb-ui-client/src/conversion/functions/duckDBValueFromVector.ts:244-257 | a row of a union column gives the value of the member that its tag names |
| ColumnLayout.MapColumn | ts/pkgs/duckdb-ui-client/src/conversion/functions/duckDBValueFromVector.ts:219-231 | a row of a map column gives the pairs of that row, from the two columns of its child |
| ColumnLayout.ReadsBack | ts/pkgs/duckdb-ui-client/src/conversion/functions/duckDBValueFromVector.ts:59-271 | for every type and every list of rows with NULLs at any depth, reading row i of the laid-out column gives the value of the i-th row, and no access is out of range (`ColumnValues` says which value that is, from the bytes) |
| ColumnValues.LaidOutTypes | ts/pkgs/duckdb-ui-client/src/conversion/functions/duckDBValueFromVector.ts:67-270 | the types of that theorem, by ids in numbers: all that the client reads, with the information that they need |
| ColumnValues.NumberCells | ts/pkgs/duckdb-ui-client/src/conversion/functions/duckDBValueFromVector.ts:68-171 | the numbers of that theorem: those that fit the width of each id |
| ColumnValues.FlatCells | ts/pkgs/duckdb-ui-client/src/conversion/functions/duckDBValueFromVector.ts:131-185 | the values of that theorem at the ids of floats, texts, byte strings and intervals |
| ColumnValues.NestedCells | ts/pkgs/duckdb-ui-client/src/conversion/functions/duckDBValueFromVector.ts:197-266 | the structs and unions of that theorem, by ids in numbers |
| ColumnValues.ItemCells | ts/pkgs/duckdb-ui-client/src/conversion/functions/duckDBValueFromVector.ts:197-266 | the lists, maps and arrays of that theorem likewise |
| FetchLoop.FetchRows | src/http_server.cpp:611-651 | the response holds the first rows up to its limit, the table those up to its own, and no chunk is fetched once the larger limit is met |
| DataReader.AddToRunsExpands | ts/pkgs/duckdb-data-reader/src/DuckDBDataReader.ts:167-183 | runs stay in shape (each row count is count times size, neighbours differ in size) and expand to the batch sizes read so far |
| DataReader.RunsAreUnique | ts/pkgs/duckdb-data-reader/src/DuckDBDataReader.ts:29-32 | the runs of a list of batch sizes are determined by it |
| DataReader.RowInRun | ts/pkgs/duckdb-data-reader/src/DuckDBDataReader.ts:100-113 | division and remainder by the size of the run that holds a row give its batch and its row in the batch; the size is not zero and the batch is in range |
| DataReader.LocateStable | ts/pkgs/duckdb-data-reader/src/DuckDBDataReader.ts:92-123 | a row is found in the same place when more batches have been read |
| DataReader.ValuesNeverChange | ts/pkgs/duckdb-data-reader/src/DuckDBDataReader.ts:139-165 | reading more never changes the batch and the row in it where a row already read is found |
| DataReader.DataReader.Value | ts/pkgs/duckdb-data-reader/src/DuckDBDataReader.ts:92-123 | the value is that of the row in the concatenated batches, with the error of each case of a row that is not there |
| DataReader.DataReader.Read | ts/pkgs/duckdb-data-reader/src/DuckDBDataReader.ts:148-165 | reading keeps the invariant and the batches read before, and stops exactly at the end or at the first batch with which the target is met |
| DataReader.DataReader.UpdateBatchSizeRuns | ts/pkgs/duckdb-data-reader/src/DuckDBDataReader.ts:167-183 | the runs expand to the same sizes with the new one appended, and stay in shape |
| DataReader.BatchIterator.Next | ts/pkgs/duckdb-ui-client/src/data-chunk/classes/DuckDBDataChunkIterator.ts:24-35 | chunks are yielded in order, each once, and then the end |
| EndToEnd.LayoutFits | ts/pkgs/duckdb-ui-client/src/serialization/functions/vectorReaders.ts:28-172 | every laid-out column can be written on the wire as its type asks if and only if its sizes are below 2^31 |
| EndToEnd.ReaderRow | ts/pkgs/duckdb-data-reader/src/DuckDBDataReader.ts:92-123 | at every row of the reader stands the value of that row of the served chunks |
| EndToEnd.QueryOverTheWire | src/http_server.cpp:611-660 | through fetch, layout, encoding, decoding and reader: the row count is the number of rows up to the limit, every value is that of the row of the query result, and the table gets the first rows up to its own limit |
| RequestQueue.RequestQueue.InternalEnqueue | ts/pkgs/duckdb-ui-client/src/http/classes/DuckDBUIHttpRequestQueue.ts:76-97 | enqueueing is the step of the state machine: the entry is appended, and sent if it is alone |
| RequestQueue.RequestQueue.Cancel | ts/pkgs/duckdb-ui-client/src/http/classes/DuckDBUIHttpRequestQueue.ts:52-66 | cancelling is the step: the first entry with the id is marked and its promise rejected |
| RequestQueue.RequestQueue.HandleResponse | ts/pkgs/duckdb-ui-client/src/http/classes/DuckDBUIHttpRequestQueue.ts:99-133 | a response is the step: the front entry leaves and the next one is sent; unless canceled, its promise is resolved with the buffer, or rejected with the reason when there is none |
| RequestQueue.RequestQueue.IsCurrent | ts/pkgs/duckdb-ui-client/src/http/classes/DuckDBUIHttpRequestQueue.ts:68-74 | true exactly for the id at the front, which in every reachable state is the one in flight |
| RequestQueue.StepKeeps | ts/pkgs/duckdb-ui-client/src/http/classes/DuckDBUIHttpRequestQueue.ts:21-26 | every event keeps: one request in flight, the front, exactly when the queue is not empty; later entries unsent; a queued entry rejected if canceled and otherwise pending |
| RequestQueue.RunKeeps | ts/pkgs/duckdb-ui-client/src/http/classes/DuckDBUIHttpRequestQueue.ts:76-154 | that invariant holds after every run, under any interleaving |
| RequestQueue.ResponsesFit | ts/pkgs/duckdb-ui-client/src/http/classes/DuckDBUIHttpRequestQueue.ts:105-116 | in every reachable state the two warning branches cannot have been taken, and one request is in flight exactly when the queue is not empty |
| RequestQueue.AlwaysPossible | ts/pkgs/duckdb-ui-client/src/http/classes/DuckDBUIHttpRequestQueue.ts:52-154 | no run is stuck: after any run a new entry can be enqueued, any id canceled, and the front, if there is one, answered |
| RequestQueue.WireOrder | ts/pkgs/duckdb-ui-client/src/http/classes/DuckDBUIHttpRequestQueue.ts:135-145 | requests reach the wire in the order they were enqueued, without exactly the entries canceled before they came to the front |
| RequestQueue.SettledByItsOwn | ts/pkgs/duckdb-ui-client/src/http/classes/DuckDBUIHttpRequestQueue.ts:118-130 | an entry that has left has its promise settled, by a cancellation of it or else once, by the response to it: a promise is resolved with a buffer only if the run holds a response with it, and rejected with a reason likewise; a queued one only if canceled |
| RequestQueue.CallsOfOneEvent | ts/pkgs/duckdb-ui-client/src/http/classes/DuckDBUIHttpRequestQueue.ts:52-130 | in any state: a cancellation rejects the promise of a queued entry, with its message or the default one; a response at an uncanceled front resolves with its buffer or rejects with its reason; nothing else settles |
| RequestQueue.ResponsePassedOn | ts/pkgs/duckdb-ui-client/src/http/classes/DuckDBUIHttpRequestQueue.ts:118-130 | in every run, a response to an entry that was not canceled before settles its promise with exactly what it brought |
| RequestQueue.Drains | ts/pkgs/duckdb-ui-client/src/http/classes/DuckDBUIHttpRequestQueue.ts:99-145 | without new entries, n queued ones are gone after at most n responses, and until then a response is due |
| EventDispatcher.EventDispatcher.WaitEnter | src/event_dispatcher.cpp:22-31 | the part of a wait before it waits is the step Enter: refused when closed or when three wait |
| EventDispatcher.EventDispatcher.WaitExit | src/event_dispatcher.cpp:33-45 | the part after the wait is the step Exit, which may come at any time |
| EventDispatcher.EventDispatcher.SendEvent | src/event_dispatcher.cpp:47-56 | sending is the step: nothing when closed, otherwise a new current event |
| EventDispatcher.StepKeeps | src/event_dispatcher.cpp:22-76 | every step keeps: the counter counts the waiters, at most three; the current number is one below the next; written events are true and their numbers increase on each stream |
| EventDispatcher.EveryRun | src/event_dispatcher.cpp:22-56 | the same after every interleaving of senders, waiters, timeouts, spurious wakeups and Close |
| EventDispatcher.AlwaysPossible | src/event_dispatcher.cpp:22-76 | in every state of the invariant anything can be sent, the monitor closed, a waiter leave, and another stream enter until it has ended |
| EventDispatcher.DeliveryExact | src/event_dispatcher.cpp:30-43 | a waiter that leaves an open dispatcher writes the one event sent while it waited, if there was exactly one, and otherwise the empty message |
| EventDispatcher.SilentAfterClose | src/event_dispatcher.cpp:27-36 | after Close nothing is written or sent, and every stream that enters or leaves ends |
| Watcher.WasCatalogUpdated | src/watcher.cpp:16-61 | a poll stores exactly the versions it sees, and reports a change if and only if they differ from those stored (or databases that share an id differ in version) |
| Watcher.ForgetDetached | src/watcher.cpp:48-57 | exactly the databases that are no longer attached are erased, and reported |
| Watcher.PollIsExact | src/watcher.cpp:25-61 | the differences found by the two loops are all the differences of the two maps |
| Watcher.Watcher.Watch | src/watcher.cpp:63-105 | the events of a run are those of its completed rounds and of the round that throws, if one does; and why the loop ended |
| Watcher.ChangesAreDifferences | src/watcher.cpp:84-87 | change events are as many as adjacent snapshots that differ, starting from the empty one |
| Watcher.ConnectsOnce | src/watcher.cpp:89-92 | a run sends at most one connected event, with the token of the first round that sees a connection |
| TypeParser.ToString | ts/pkgs/duckdb-data-types/src/DuckDBType.ts:625-639 | the printers, with the loops of struct and union, print the specified text |
| TypeParser.ParseFields | ts/pkgs/duckdb-data-types/src/parseLogicalTypeString.ts:154-196 | the loop with its counts of parentheses and quotes splits and parses fields as specified |
| TypeParser.MatchStructMapOrUnion | ts/pkgs/duckdb-data-types/src/parseLogicalTypeString.ts:98-145 | the type, or the error, is the specified one, with the order of keys of an object |
| TypeParser.ParseLogicalTypeString | ts/pkgs/duckdb-data-types/src/parseLogicalTypeString.ts:255-286 | the parser computes the specification, and ends on every string: each recursive parse is of a shorter one |
| FieldSplitting.SplitJoin | ts/pkgs/duckdb-data-types/src/parseLogicalTypeString.ts:154-196 | splitting joined fields gives them back, trimmed, for all fields with balanced parentheses and quotes outside which no comma stands |
| FieldSplitting.JoinSettled | ts/pkgs/duckdb-data-types/src/parseLogicalTypeString.ts:147-153 | inside parentheses, joined fields end no field of the scan |
| PrintedTypes.PrintSettled | ts/pkgs/duckdb-data-types/src/DuckDBType.ts:625-639 | no field of a scan ends inside a printed type, at any depth |
| PrintedTypes.EnumPrinted | ts/pkgs/duckdb-data-types/src/parseLogicalTypeString.ts:224-226 | the unanchored enum expression matches a printed type if and only if it matches a name in it |
| TypeStringRoundTrip.TypeStringRoundTrip | ts/pkgs/duckdb-data-types/src/parseLogicalTypeString.ts:255-286 | a printed type is parsed to itself with quoted names if and only if names are distinct, without line terminators and "enum(", and no map argument prints as a type with time zone |
| ParserTexts.PrintableTypes | ts/pkgs/duckdb-data-types/src/parseLogicalTypeString.ts:255-286 | the types of that theorem: all without enums, of simple types the parser knows, and without double quotes in names |
| TypeStringRoundTrip.RecordOf | ts/pkgs/duckdb-data-types/src/parseLogicalTypeString.ts:109-115 | the record of fields has all of them, in order, if and only if their names are distinct |
| RecordKeys.IndexKeys | ts/pkgs/duckdb-data-types/src/parseLogicalTypeString.ts:109-115 | a key is ordered by number exactly when it is the decimal text of a number below 2^32 - 1 |
| RecordKeys.ObjectOrder | ts/pkgs/duckdb-data-types/src/parseLogicalTypeString.ts:109-115 | the record of any fields holds the last field of each name; array indices come first, by number, and the others in the order in which they came first |
| RecordKeys.RecordInOrder | ts/pkgs/duckdb-data-types/src/parseLogicalTypeString.ts:109-115 | a record is the list of its fields if and only if no name is repeated and the indices come first in order |
| TypeStringRoundTrip.ParseZonedField | ts/pkgs/duckdb-data-types/src/parseLogicalTypeString.ts:203-214 | every map argument that prints as a type with time zone, or lists and arrays of one, is misread as a named field and fails |
| TypeStringRoundTrip.ZonedKeyFails | ts/pkgs/duckdb-data-types/src/parseLogicalTypeString.ts:203-214 | the map from TIME WITH TIME ZONE to INTEGER is not read back |
| TypeStringRoundTrip.EnumReadsBack | ts/pkgs/duckdb-data-types/src/parseLogicalTypeString.ts:224-235 | an enum on its own is recognised with its whole text if and only if no closing parenthesis is in it |
| TypeStringRoundTrip.NestedEnumLost | ts/pkgs/duckdb-data-types/src/parseLogicalTypeString.ts:224-235 | a struct with an enum field is read as an enum |
| WordFields.WordField | ts/pkgs/duckdb-data-types/src/parseLogicalTypeString.ts:203-214 | a word of letters a–z and A–Z, digits and underscores, a space and a text are a named field |
| WordFields.NoWordField | ts/pkgs/duckdb-data-types/src/parseLogicalTypeString.ts:203-214 | with any other character before the first white space, a field without quotes has no name |
| WordFields.WordRoundTrip | ts/pkgs/duckdb-data-types/src/parseLogicalTypeString.ts:98-214 | a struct or union whose fields are such words and printed types is read back with its names if and only if those are distinct and in the order of an object, and every type is read back |
| ParserTexts.SimpleTypes | ts/pkgs/duckdb-data-types/src/parseLogicalTypeString.ts:56-96 | a string is parsed as a simple type if and only if it is one of the 39 names, written out |
| ParserTexts.PlainStruct | ts/pkgs/duckdb-data-types/test/parseLogicalTypeString.test.ts:171-180 | `STRUCT(a INTEGER, b VARCHAR)` gives the two fields with keys a and b |
| ParserTexts.FirstQuoteDoubled | ts/pkgs/duckdb-data-types/src/sql.ts:5-7 | only the first double quote of a name is doubled |
| ParserTexts.PrintedKinds | ts/pkgs/duckdb-data-types/src/DuckDBType.ts:579-787 | the printed form of each kind of type, around the texts of its parts |
| ParserTexts.ArrayOfDigits | ts/pkgs/duckdb-data-types/src/parseLogicalTypeString.ts:245-253 | any digits between the last brackets are a length, with leading zeros too |
| ParserTexts.NoLength | ts/pkgs/duckdb-data-types/src/parseLogicalTypeString.ts:245-253 | anything but digits between the last brackets is no length |
| ParserTexts.DecimalOfDigits | ts/pkgs/duckdb-data-types/src/parseLogicalTypeString.ts:216-222 | any digits are a width and a scale |
| ParserTexts.NoDecimal | ts/pkgs/duckdb-data-types/src/parseLogicalTypeString.ts:216-222 | without digits for the width and the scale, and a comma between them, there is no decimal |
| ParserTexts.EnumAnywhere | ts/pkgs/duckdb-data-types/src/parseLogicalTypeString.ts:224-235 | the letters of ENUM in any case before the first parenthesis make an enum, anywhere in a string |
| ParserTexts.EnumUnclosed | ts/pkgs/duckdb-data-types/src/parseLogicalTypeString.ts:224-235 | without a closing parenthesis after the first opening one there is no enum |
| ParserTexts.TerminatorInName | ts/pkgs/duckdb-data-types/src/parseLogicalTypeString.ts:203-214 | a quoted name has no line terminator in it |
| ParserTexts.SpaceCharacters | ts/pkgs/duckdb-data-types/src/parseLogicalTypeString.ts:98-99 | white space and line terminators, by code |
| ParserTexts.SpacesAround | ts/pkgs/duckdb-data-types/src/parseLogicalTypeString.ts:98-145 | white space around a struct, map or union, and before its parenthesis, changes nothing |
| ParserTexts.SkippedStart | ts/pkgs/duckdb-data-types/src/parseLogicalTypeString.ts:160-188 | no field starts with a comma or a parenthesis; a comma with nothing before it ends no field |
| ParserTexts.ErrorsNameText | ts/pkgs/duckdb-data-types/src/parseLogicalTypeString.ts:255-286 | every error names a text, no longer than the string, that no expression matches |
| Calendar.SplitIsTrueDate | ts/pkgs/duckdb-data-values/src/conversion/dateTimeStringConversion.ts:25-48 | for every number of days, the date by the 400-year split is the date of that day in the proleptic Gregorian calendar |
| Calendar.OneDate | ts/pkgs/duckdb-data-values/src/conversion/dateTimeStringConversion.ts:40-46 | a day has one date: valid dates with the same day number are the same |
| Calendar.NextDay | ts/pkgs/duckdb-data-values/src/conversion/dateTimeStringConversion.ts:40-46 | from the first of January 1970 on, the day after the last of a month is the first of the next, with the twelve lengths written out for both kinds of year |
| DateStrings.GetDuckDBDateStringFromDays | ts/pkgs/duckdb-data-values/src/conversion/dateTimeStringConversion.ts:25-48 | the program's computation from absolute days prints the specified date, of which `DateTexts.DateText` gives every character |
| DateStrings.DatesDiffer | ts/pkgs/duckdb-data-values/src/conversion/dateTimeStringConversion.ts:14-48 | two days print the same if and only if they are the same, after the correction of negative years (`DateTexts.DateText` says what is printed) |
| DateTexts.AroundYearZero | ts/pkgs/duckdb-data-values/src/conversion/dateTimeStringConversion.ts:41-44 | the first day of astronomical year 0 is printed as 0000-01-01, and the day before it as 0002-12-31 (BC) |
| DateTexts.PrintedIn1970 | ts/pkgs/duckdb-data-values/src/conversion/dateTimeStringConversion.ts:14-48 | days 0 and 30 are printed as 1970-01-01 and 1970-01-31 |
| DateTexts.DateText | ts/pkgs/duckdb-data-values/src/conversion/dateTimeStringConversion.ts:14-48 | for every valid civil date, the text of its day: the digits before the first dash show the year, corrected when negative and with zeros up to four digits only, the next two the month, the two after the second dash the day, and (BC) follows if and only if the year is negative |
| DateStrings.GetDuckDBTimestampStringFromMicroseconds | ts/pkgs/duckdb-data-values/src/conversion/dateTimeStringConversion.ts:239-275 | without a time zone, the program's correction of a negative remainder prints the specified timestamp |
| DateStrings.SplitIsFloor | ts/pkgs/duckdb-data-values/src/conversion/dateTimeStringConversion.ts:264-269 | truncating division with the correction of a negative remainder is division that rounds down |
| DateStrings.TimeInjective | ts/pkgs/duckdb-data-values/src/conversion/dateTimeStringConversion.ts:173-205 | hour, minute, second and trimmed fraction tell all times of a day apart |
| DateTexts.TimeText | ts/pkgs/duckdb-data-values/src/conversion/dateTimeStringConversion.ts:173-205 | hours, minutes and seconds by their digits; the fraction is left out when 0 and otherwise ends in a digit that is not 0 |
| DateStrings.TimestampsDiffer | ts/pkgs/duckdb-data-values/src/conversion/dateTimeStringConversion.ts:239-275 | two counts of microseconds, infinities included, print the same if and only if they are the same |
| DateTexts.TimestampText | ts/pkgs/duckdb-data-values/src/conversion/dateTimeStringConversion.ts:227-275 | the infinities at plus and minus 9223372036854775807, and otherwise the date of the day, a space, and the time in it |
| DateStrings.OtherUnits | ts/pkgs/duckdb-data-values/src/conversion/dateTimeStringConversion.ts:277-299 | seconds and milliseconds lose nothing; nanoseconds print the same if and only if they agree after truncating division by 1000 |
| DateTexts.OtherUnitsText | ts/pkgs/duckdb-data-values/src/conversion/dateTimeStringConversion.ts:277-299 | the factors 1000000 and 1000, and the division by 1000 that rounds towards zero |
| DateStrings.ZonedTimestampsDiffer | ts/pkgs/duckdb-data-values/src/conversion/dateTimeStringConversion.ts:50-64 | with a time-zone offset, timestamp and offset can both be told from the text |
| DateTexts.OffsetText | ts/pkgs/duckdb-data-values/src/conversion/dateTimeStringConversion.ts:50-64 | the sign, the hours, and the minutes if they are not 0, by their digits |
| DateTexts.ZonedTimestampText | ts/pkgs/duckdb-data-values/src/conversion/dateTimeStringConversion.ts:239-275 | the local date and time, 60000000 microseconds per minute of offset away, and then the offset |
| Uuid.FlipAddsTop | ts/pkgs/duckdb-data-values/src/DuckDBUUIDValue.ts:35-40 | flipping the top bit of a stored UUID equals adding 2^127, modulo 2^128 |
| Uuid.SetBigUint64 | ts/pkgs/duckdb-data-values/src/DuckDBUUIDValue.ts:42-51 | the eight bytes at the offset become the number, most significant first, and no other byte changes |
| Uuid.FromUint128 | ts/pkgs/duckdb-data-values/src/DuckDBUUIDValue.ts:42-51 | the buffer holds the number in 16 bytes, most significant first |
| Uuid.HexFromBlob | ts/pkgs/duckdb-data-values/src/conversion/hexFromBlob.ts:1-20 | the loop prints two digits for every byte of the range |
| Uuid.ToDuckDBStringFromBytes | ts/pkgs/duckdb-data-values/src/DuckDBUUIDValue.ts:13-20 | the five groups of digits are those of the specified text; any other length than 16 is an error |
| Uuid.StoredOrder | ts/pkgs/duckdb-data-values/src/DuckDBUUIDValue.ts:13-51 | stored UUIDs are ordered as their texts are, and equal texts come from equal UUIDs |
| Uuid.TextForm | ts/pkgs/duckdb-data-values/src/DuckDBUUIDValue.ts:13-20 | the text has the form of section 4 of RFC 9562: 36 characters, dashes at four places, lower-case hexadecimal digits elsewhere |
| Uuid.TextDigits | ts/pkgs/duckdb-data-values/src/DuckDBUUIDValue.ts:13-20 | where the two digits of each of the sixteen bytes stand in the text |
| BitString.FromLengthAndPredicate | ts/pkgs/duckdb-data-values/src/DuckDBBitValue.ts:87-126 | the packed bytes are the specified ones, and the predicate is asked once for every index, in order |
| BitString.PackedReadsBack | ts/pkgs/duckdb-data-values/src/DuckDBBitValue.ts:16-25 | the packed value has the asked length, and every bit reads back as the predicate gave it |
| BitString.ToBools | ts/pkgs/duckdb-data-values/src/DuckDBBitValue.ts:27-34 | the loop lists every bit of the value, in order |
| BitString.PackedWellFormed | ts/pkgs/duckdb-data-values/src/DuckDBBitValue.ts:87-126 | packed data counts fewer than eight padding bits, all of them ones |
| BitString.SameBitsSameBytes | ts/pkgs/duckdb-data-values/src/DuckDBBitValue.ts:87-126 | packed values of one length with the same bits are the same bytes |
| BigNum.GetBigNumFromBytes | ts/pkgs/duckdb-data-values/src/conversion/getBigNumFromBytes.ts:12-34 | the loop over eight bytes at a time, with its byte tail and sign inversion, equals the big-endian value of the bytes |
| BigNum.StoredRoundTrip | ts/pkgs/duckdb-data-values/src/conversion/getBigNumFromBytes.ts:12-34 | every integer is read back from its stored form |
| Base64.BuildDecodingTable | src/utils/encoding.cpp:10-20 | the table maps every character of the alphabet to its place in it, and every other byte to zero |
| Base64.DecodeBase64 | src/utils/encoding.cpp:24-62 | the loop with its two indices decodes as specified, with the errors of a bad length and the padding |
| Base64.CodesAre | src/utils/encoding.cpp:10-11 | the alphabets of server and client, character by character |
| Base64.DecodedBlocks | src/utils/encoding.cpp:24-62 | block by block: the places of four characters in the written-out table are 24 bits, a final block loses a byte for each `=` at its last two places, and a bad length gives nothing |
| Base64.OwnRoundTrip | src/utils/encoding.cpp:24-62 | the decoder inverts encoding with its own alphabet, on every byte string |
| Base64.EncodedByClient | ts/pkgs/duckdb-ui-client/src/util/functions/toBase64.ts:3-9 | three bytes are four characters of the client's written-out alphabet, and one or two at the end are padded with `=` |
| Base64.ClientToServer | ts/pkgs/duckdb-ui-client/src/util/functions/toBase64.ts:3-9 | what the client encodes is decoded to the same bytes if and only if no group of six bits is 63 |
| Base64.LostText | ts/pkgs/duckdb-ui-client/src/util/functions/toBase64.ts:3-9 | a text that the server does not get back |

## Left out

- TypeStringRoundTrip.TypeStringRoundTrip: is about names without double quotes, because only the first double quote of a name is doubled; numbers in type strings are exact below 2^53 only, as JavaScript numbers are.
- TypeParser.ParseLogicalTypeString: keeps the text of an enum whole instead of splitting its values; keys of `Object.prototype` are not looked up in the table of simple types or put in records.
- TypeParser.ToString: an alias is printed as it is; the extension types of the simple types are the only aliases that are read back.
- EventDispatcher.EveryRun: a waiter may leave at any time, but nothing says that it does.
- Watcher.Watcher.Watch: each round is given what it observes; starting and stopping the thread, and the time waited between rounds, are not part of this model.
- DateStrings.ZonedTimestampsDiffer: takes the offset in minutes as an input, because `Intl` looks it up.
- EndToEnd.QueryOverTheWire: the sizes of the encoded result must fit the 32-bit formats, and a chunk the 16-bit row count; a negative row count, which no server sends, is taken as 0.
- DataReader.DataReader.Read: runs to its end; concurrent reads of one reader are not part of this model.
- UTF-8 decoding by `TextDecoder`: strings are byte sequences in the protocol.
- Floating-point values: the payloads of FLOAT and DOUBLE are opaque bytes.
- SQL execution before the fetch loop, and failures while fetching: the result is a finite sequence of chunks.
- C++ integer overflow of row counters and event numbers: integers are unbounded.
- `Number(...)` of a union tag is modelled for NULL, boolean and number values, the only ones a tag can be.
- HTTP serving, headers, settings, the random ids of requests, and the proxy: plumbing. Request ids are taken to be fresh.
- The reason of a rejected request is a string; `handleResponse` does not throw, so that its own `catch` is never reached.
- JSON conversion, blob and interval text, locale number formatting, column-name de-duplication, connection lookup by name.
- Depth of the JavaScript stack: recursion is bounded by the bytes read, not by a constant.
